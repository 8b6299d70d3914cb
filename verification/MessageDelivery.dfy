/**
  History loads and delivery-sync pulls side by side: every `await` is a point at
  which the chat is switched, another load or pull moves on, or a request fails.
*/
module MessageDelivery {
  import opened Wrappers
  import opened MessageStore
  import opened MessageHistory

  /** Where a load waits. `Resting` is the timer of its one retry. */
  datatype LoadStage =
    | Seeding
    | Fetching(seed: seq<Message>)
    | Decrypting(seed: seq<Message>, rows: seq<Message>)
    | Saving(out: seq<Message>)
    | Resting

  datatype PullStage =
    | Asking
    | Opening(rows: seq<Message>)
    | Caching(rows: seq<Message>, i: nat)

  datatype Load = Load(id: nat, chat: Chat, cancelled: bool, attempt: nat, stage: LoadStage)
  datatype Pull = Pull(chat: Chat, stage: PullStage)

  /** A row put into an ack batch. */
  datatype Ack = Ack(id: Id, text: string)

  /** Rows of `chat` put on screen by a load or, without one, by a pull: the chat open
      then, the one whose effects are set up, and whether the load was cancelled. */
  datatype Showing = Showing(load: Option<nat>, chat: Chat, open: Option<Chat>, mounted: Option<Chat>, cancelled: bool)

  /** `acks`, `shown` and `cut` are history; `cut` holds the loads that were cancelled
      during their cache write. */
  datatype State = State(
    me: User, active: Option<Chat>, store: seq<Message>, feed: map<Id, Message>, deleted: set<Id>,
    loads: seq<Load>, pulls: seq<Pull>, mounted: Option<Chat>, nextLoad: nat,
    acks: seq<Ack>, shown: seq<Showing>, cut: set<nat>)

  datatype Step =
    | Switch(chat: Option<Chat>)
    | Mount(ready: bool)
    | Seeded(k: nat, seed: seq<Message>)
    | Got(k: nat, rows: seq<Message>)
    | Opened(k: nat, texts: seq<string>)
    | Saved(k: nat, cached: bool)
    | LoadFails(k: nat)
    | Timer(k: nat)
    | StartPull
    | PullGot(k: nat, rows: seq<Message>)
    | PullOpened(k: nat, texts: seq<string>)
    | PullCached(k: nat, cached: bool)
    | PullFails(k: nat)
    | Evict(ids: set<Id>)
    | Delete(id: Id)

  function Without<T>(s: seq<T>, k: nat): seq<T>
    requires k < |s|
  {
    s[..k] + s[k + 1..]
  }

  function AtLoad(s: State, k: nat, stage: LoadStage): State
    requires k < |s.loads|
  {
    s.(loads := s.loads[k := s.loads[k].(stage := stage)])
  }

  function AtPull(s: State, k: nat, stage: PullStage): State
    requires k < |s.pulls|
  {
    s.(pulls := s.pulls[k := s.pulls[k].(stage := stage)])
  }

  predicate Enabled(s: State, a: Step) {
    match a
    case Seeded(k, seed) => k < |s.loads| && s.loads[k].stage.Seeding?
    case Got(k, rows) => k < |s.loads| && s.loads[k].stage.Fetching?
    case Opened(k, texts) => k < |s.loads| && s.loads[k].stage.Decrypting? && |texts| == |s.loads[k].stage.rows|
    case Saved(k, _) => k < |s.loads| && s.loads[k].stage.Saving?
    case LoadFails(k) => k < |s.loads| && (s.loads[k].stage.Fetching? || s.loads[k].stage.Decrypting?)
    case Timer(k) => k < |s.loads| && s.loads[k].stage.Resting?
    case PullGot(k, rows) => k < |s.pulls| && s.pulls[k].stage.Asking?
    case PullOpened(k, texts) => k < |s.pulls| && s.pulls[k].stage.Opening? && |texts| == |s.pulls[k].stage.rows|
    case PullCached(k, _) => k < |s.pulls| && s.pulls[k].stage.Caching? && s.pulls[k].stage.i < |s.pulls[k].stage.rows|
    case PullFails(k) => k < |s.pulls| && !s.pulls[k].stage.Caching?
    case _ => true
  }

  /** What the server and the cache are trusted for: rows of the chat asked for, no id
      twice, and a seed that is the newest part of what is cached, or nothing when the
      cache cannot be read. */
  ghost predicate Honest(s: State, a: Step)
    requires Enabled(s, a)
  {
    match a
    case Seeded(k, seed) => seed == [] || IsRecent(s.feed, s.loads[k].chat, seed)
    case Got(k, rows) => Unique(rows) && AllOf(s.loads[k].chat, rows)
    case _ => true
  }

  predicate AllOf(chat: Chat, rows: seq<Message>) { forall m :: m in rows ==> m.chat == chat }

  /** Clean-up of the effect: its loads are cancelled, their retry timers cleared. */
  function Cancelled(loads: seq<Load>): seq<Load> {
    if loads == [] then []
    else (if loads[0].stage.Resting? then [] else [loads[0].(cancelled := true)]) + Cancelled(loads[1..])
  }

  /** The loads whose last look at `cancelled` is behind them when it is set. */
  function CutNow(loads: seq<Load>): set<nat> {
    set l | l in loads && !l.cancelled && l.stage.Saving? :: l.id
  }

  function Remount(s: State, ready: bool): State {
    var t := s.(loads := Cancelled(s.loads), cut := s.cut + CutNow(s.loads), mounted := s.active);
    if s.active.None? then t.(store := SetMessages(s.store, []))
    else if ready
    then t.(loads := t.loads + [Load(s.nextLoad, s.active.value, false, 0, Seeding)], nextLoad := s.nextLoad + 1)
    else t
  }

  function ShownBy(s: State, l: Load): Showing { Showing(Some(l.id), l.chat, s.active, s.mounted, l.cancelled) }

  /** The cached messages are shown at once, if the load still matters. */
  function Seed(s: State, k: nat, seed: seq<Message>): State
    requires k < |s.loads|
  {
    var t := AtLoad(s, k, Fetching(seed));
    if !s.loads[k].cancelled && seed != []
    then t.(store := SetMessages(s.store, seed), shown := s.shown + [ShownBy(s, s.loads[k])])
    else t
  }

  function Decrypted(s: State, k: nat, texts: seq<string>): State
    requires Enabled(s, Opened(k, texts))
  {
    var l := s.loads[k];
    if l.cancelled then s.(loads := Without(s.loads, k))
    else AtLoad(s, k, Saving(Loaded(l.stage.seed, WithTexts(l.stage.rows, texts))))
  }

  function AcksOf(out: seq<Message>, me: User): seq<Ack> {
    if out == [] then []
    else
      var first := if out[0].sender != me && Readable(out[0].text) then [Ack(out[0].id, out[0].text)] else [];
      first + AcksOf(out[1..], me)
  }

  /** The cache is written, or could not be; `cancelled` is not looked at again. */
  function Save(s: State, k: nat, cached: bool): State
    requires Enabled(s, Saved(k, cached))
  {
    var out := s.loads[k].stage.out;
    s.(feed := if cached then PutAll(s.feed, s.deleted, Cacheable(out)) else s.feed,
       store := SetMessages(s.store, out),
       shown := s.shown + [ShownBy(s, s.loads[k])],
       acks := s.acks + AcksOf(out, s.me),
       loads := Without(s.loads, k))
  }

  function Fail(s: State, k: nat): State
    requires k < |s.loads|
  {
    if !s.loads[k].cancelled && s.loads[k].attempt < 1 then AtLoad(s, k, Resting)
    else s.(loads := Without(s.loads, k))
  }

  /** One row of a pull: cached, shown if its chat is still the open one, and listed
      for acknowledgement if it can be read. */
  function Deliver(s: State, k: nat, cached: bool): State
    requires Enabled(s, PullCached(k, cached))
  {
    var p := s.pulls[k];
    var row := p.stage.rows[p.stage.i];
    var t := s.(feed := if cached then PutOne(s.feed, s.deleted, row) else s.feed);
    var u := if s.active == Some(p.chat)
             then t.(store := AppendMessage(s.store, row),
                     shown := s.shown + [Showing(None, p.chat, s.active, s.mounted, false)])
             else t;
    var v := if Readable(row.text) then u.(acks := u.acks + [Ack(row.id, row.text)]) else u;
    if p.stage.i + 1 < |p.stage.rows| then AtPull(v, k, Caching(p.stage.rows, p.stage.i + 1))
    else v.(pulls := Without(v.pulls, k))
  }

  function Next(s: State, a: Step): State
    requires Enabled(s, a)
  {
    match a
    case Switch(chat) => s.(active := chat)
    case Mount(ready) => Remount(s, ready)
    case Seeded(k, seed) => Seed(s, k, seed)
    case Got(k, rows) => AtLoad(s, k, Decrypting(s.loads[k].stage.seed, rows))
    case Opened(k, texts) => Decrypted(s, k, texts)
    case Saved(k, cached) => Save(s, k, cached)
    case LoadFails(k) => Fail(s, k)
    case Timer(k) => AtLoad(s.(loads := s.loads[k := s.loads[k].(attempt := s.loads[k].attempt + 1)]), k, Seeding)
    case StartPull => if s.active.Some? then s.(pulls := s.pulls + [Pull(s.active.value, Asking)]) else s
    case PullGot(k, rows) => if rows == [] then s.(pulls := Without(s.pulls, k)) else AtPull(s, k, Opening(rows))
    case PullOpened(k, texts) => AtPull(s, k, Caching(WithTexts(s.pulls[k].stage.rows, texts), 0))
    case PullCached(k, cached) => Deliver(s, k, cached)
    case PullFails(k) => s.(pulls := Without(s.pulls, k))
    case Evict(ids) => s.(feed := s.feed - ids)
    case Delete(id) => s.(deleted := s.deleted + {id}, feed := s.feed - {id})
  }

  ghost predicate CanRun(s: State, run: seq<Step>)
    decreases |run|
  {
    run == [] || (Enabled(s, run[0]) && Honest(s, run[0]) && CanRun(Next(s, run[0]), run[1..]))
  }

  ghost function Run(s: State, run: seq<Step>): State
    requires CanRun(s, run)
    decreases |run|
  {
    if run == [] then s else Run(Next(s, run[0]), run[1..])
  }

  function Start(me: User): State { State(me, None, [], map[], {}, [], [], None, 0, [], [], {}) }

  // ---------------------------------------------------------- invariant

  ghost predicate LoadOk(l: Load) {
    match l.stage
    case Fetching(seed) => Unique(seed)
    case Decrypting(seed, rows) => Unique(rows) && AllOf(l.chat, rows)
    case Saving(out) => Unique(out) && Sorted(out) && AllOf(l.chat, out)
    case _ => true
  }

  predicate AcksOk(acks: seq<Ack>) { forall a :: a in acks ==> Readable(a.text) }

  predicate ShownOk(shown: seq<Showing>) { forall e :: e in shown && e.load.None? ==> e.open == Some(e.chat) }

  ghost predicate LoadsOk(loads: seq<Load>) { forall i :: 0 <= i < |loads| ==> LoadOk(loads[i]) }

  ghost predicate Inv(s: State) {
    StoreOk(s.store) && FeedOk(s.feed, s.deleted) && LoadsOk(s.loads) && AcksOk(s.acks) && ShownOk(s.shown)
  }

  lemma {:induction false} CancelledOk(loads: seq<Load>)
    requires LoadsOk(loads)
    ensures LoadsOk(Cancelled(loads))
    decreases |loads|
  {
    if loads != [] {
      CancelledOk(loads[1..]);
      assert LoadOk(loads[0]);
    }
  }

  lemma {:induction false} AcksOfOk(out: seq<Message>, me: User)
    ensures AcksOk(AcksOf(out, me))
    decreases |out|
  {
    if out != [] {
      AcksOfOk(out[1..], me);
    }
  }

  lemma LoadedOk(chat: Chat, seed: seq<Message>, rows: seq<Message>, texts: seq<string>)
    requires Unique(rows) && AllOf(chat, rows) && |texts| == |rows|
    ensures var out := Loaded(seed, WithTexts(rows, texts)); Unique(out) && Sorted(out) && AllOf(chat, out)
  {
    var mended := MendAll(seed, WithTexts(rows, texts));
    SortUnique(mended);
    SortSorts(mended);
    forall m | m in Loaded(seed, WithTexts(rows, texts)) ensures m.chat == chat {
      SortMembers(mended, m);
      var i :| 0 <= i < |mended| && mended[i] == m;
      assert rows[i] in rows;
    }
  }

  lemma NoneRegressSelf(s: seq<Message>)
    requires Unique(s)
    ensures NoneRegress(s, s)
  {
  }

  lemma {:induction false} CacheableOk(feed: map<Id, Message>, deleted: set<Id>, out: seq<Message>)
    requires FeedOk(feed, deleted)
    ensures FeedOk(PutAll(feed, deleted, Cacheable(out)), deleted)
  {
    forall m | m in Cacheable(out) ensures m.text != FAIL {
      CacheableMembers(out, m);
    }
    PutAllKeepsOk(feed, deleted, Cacheable(out));
  }

  lemma SaveKeeps(s: State, k: nat, cached: bool)
    requires Inv(s) && Enabled(s, Saved(k, cached))
    ensures Inv(Save(s, k, cached)) && NoneRegress(s.store, Save(s, k, cached).store)
  {
    var out := s.loads[k].stage.out;
    assert LoadOk(s.loads[k]);
    SetMessagesSound(s.store, out);
    CacheableOk(s.feed, s.deleted, out);
    AcksOfOk(out, s.me);
  }

  lemma PutOneOk(feed: map<Id, Message>, deleted: set<Id>, row: Message)
    requires FeedOk(feed, deleted)
    ensures FeedOk(PutOne(feed, deleted, row), deleted)
  {
  }

  /** What one delivered row does to each part of the state. */
  lemma DeliverParts(s: State, k: nat, cached: bool)
    requires Enabled(s, PullCached(k, cached))
    ensures var t := Deliver(s, k, cached); var p := s.pulls[k]; var row := p.stage.rows[p.stage.i];
      && t.store == (if s.active == Some(p.chat) then AppendMessage(s.store, row) else s.store)
      && t.feed == (if cached then PutOne(s.feed, s.deleted, row) else s.feed)
      && t.deleted == s.deleted && t.loads == s.loads
      && t.acks == (if Readable(row.text) then s.acks + [Ack(row.id, row.text)] else s.acks)
      && t.shown ==
        (if s.active == Some(p.chat) then s.shown + [Showing(None, p.chat, s.active, s.mounted, false)] else s.shown)
  {
  }

  lemma DeliverKeeps(s: State, k: nat, cached: bool)
    requires Inv(s) && Enabled(s, PullCached(k, cached))
    ensures Inv(Deliver(s, k, cached)) && NoneRegress(s.store, Deliver(s, k, cached).store)
  {
    var t, row := Deliver(s, k, cached), s.pulls[k].stage.rows[s.pulls[k].stage.i];
    DeliverParts(s, k, cached);
    AppendSound(s.store, row);
    NoneRegressSelf(s.store);
    PutOneOk(s.feed, s.deleted, row);
    assert AcksOk(t.acks) && ShownOk(t.shown);
  }

  lemma SeedKeeps(s: State, k: nat, seed: seq<Message>)
    requires Inv(s) && Enabled(s, Seeded(k, seed)) && Unique(seed)
    ensures Inv(Seed(s, k, seed)) && NoneRegress(s.store, Seed(s, k, seed).store)
  {
    SetMessagesSound(s.store, seed);
    NoneRegressSelf(s.store);
  }

  lemma RemountKeeps(s: State, ready: bool)
    requires Inv(s)
    ensures Inv(Remount(s, ready)) && NoneRegress(s.store, Remount(s, ready).store)
  {
    NoneRegressSelf(s.store);
    CancelledOk(s.loads);
    SetMessagesSound(s.store, []);
  }

  lemma StepKeeps(s: State, a: Step)
    requires Inv(s) && Enabled(s, a) && Honest(s, a)
    ensures Inv(Next(s, a)) && NoneRegress(s.store, Next(s, a).store)
  {
    NoneRegressSelf(s.store);
    match a
    case Mount(ready) => RemountKeeps(s, ready);
    case Seeded(k, seed) => SeedKeeps(s, k, seed);
    case Got(k, rows) => assert LoadOk(s.loads[k]);
    case Opened(k, texts) =>
      assert LoadOk(s.loads[k]);
      LoadedOk(s.loads[k].chat, s.loads[k].stage.seed, s.loads[k].stage.rows, texts);
    case Saved(k, cached) => SaveKeeps(s, k, cached);
    case PullCached(k, cached) => DeliverKeeps(s, k, cached);
    case _ =>
  }

  lemma {:induction false} RunKeeps(s: State, run: seq<Step>)
    requires Inv(s) && CanRun(s, run)
    ensures Inv(Run(s, run))
    decreases |run|
  {
    if run != [] {
      StepKeeps(s, run[0]);
      RunKeeps(Next(s, run[0]), run[1..]);
    }
  }

  /** Over every run: nothing failed or flagged is acknowledged, delivery-sync appends
      only to the chat then open, the screen stays sorted, and no failed text is
      cached. */
  lemma SafeRuns(me: User, run: seq<Step>)
    requires CanRun(Start(me), run)
    ensures var s := Run(Start(me), run);
      && (forall a :: a in s.acks ==> a.text != FAIL && a.text != KEY_CHANGE)
      && (forall e :: e in s.shown && e.load.None? ==> e.open == Some(e.chat))
      && (forall id :: id in s.feed ==> s.feed[id].text != FAIL)
      && Sorted(s.store)
  {
    RunKeeps(Start(me), run);
  }

  predicate OnScreen(s: State, id: Id) { exists i :: 0 <= i < |s.store| && s.store[i].id == id }

  ghost predicate ReadsWell(s: State, id: Id) {
    exists i :: 0 <= i < |s.store| && s.store[i].id == id && !Bad(s.store[i].text)
  }

  ghost predicate Stays(s: State, run: seq<Step>, id: Id)
    requires CanRun(s, run)
    decreases |run|
  {
    OnScreen(s, id) && (run == [] || Stays(Next(s, run[0]), run[1..], id))
  }

  /** A message that reads well goes on reading well for as long as it stays on
      screen, whichever of the racing paths writes last. */
  lemma {:induction false} TextMonotone(s: State, run: seq<Step>, id: Id)
    requires Inv(s) && CanRun(s, run) && Stays(s, run, id) && ReadsWell(s, id)
    ensures ReadsWell(Run(s, run), id)
    decreases |run|
  {
    if run != [] {
      var t := Next(s, run[0]);
      StepKeeps(s, run[0]);
      assert OnScreen(t, id);
      assert ReadsWell(t, id);
      TextMonotone(t, run[1..], id);
    }
  }

  // ------------------------------------------------ the cancelled load

  ghost predicate Distinct(loads: seq<Load>) { forall i, j :: 0 <= i < j < |loads| ==> loads[i].id != loads[j].id }

  /** Each load has an identity and belongs, until cancelled, to the chat set up; those
      cut are the cancelled ones in their cache write. */
  ghost predicate LoadsTracked(loads: seq<Load>, mounted: Option<Chat>, nextLoad: nat, cut: set<nat>) {
    && Distinct(loads)
    && (forall l :: l in loads ==> l.id < nextLoad && (l.id in cut <==> l.cancelled && l.stage.Saving?))
    && (forall l :: l in loads && !l.cancelled ==> mounted == Some(l.chat))
    && (forall l :: l in loads && l.cancelled ==> !l.stage.Resting?)
  }

  predicate Pending(loads: seq<Load>, id: nat) { exists l :: l in loads && l.id == id }

  predicate ShownLate(shown: seq<Showing>, id: nat) { exists e :: e in shown && e.load == Some(id) && e.cancelled }

  ghost predicate Tracked(s: State) {
    && LoadsTracked(s.loads, s.mounted, s.nextLoad, s.cut)
    && (forall id :: id in s.cut ==> id < s.nextLoad && (Pending(s.loads, id) || ShownLate(s.shown, id)))
    && (forall e :: e in s.shown && e.load.Some? ==>
      if e.cancelled then e.load.value in s.cut else e.mounted == Some(e.chat))
  }

  lemma {:induction false} CancelledFrom(loads: seq<Load>, l: Load)
    ensures l in Cancelled(loads) <==> exists m :: m in loads && !m.stage.Resting? && l == m.(cancelled := true)
    decreases |loads|
  {
    if loads != [] {
      CancelledFrom(loads[1..], l);
      assert loads == [loads[0]] + loads[1..];
    }
  }

  lemma {:induction false} CancelledDistinct(loads: seq<Load>)
    requires Distinct(loads)
    ensures Distinct(Cancelled(loads))
    decreases |loads|
  {
    if loads != [] {
      CancelledDistinct(loads[1..]);
      var rest := Cancelled(loads[1..]);
      forall j | 0 <= j < |rest| ensures rest[j].id != loads[0].id {
        CancelledFrom(loads[1..], rest[j]);
      }
    }
  }

  lemma CancelTracks(s: State)
    requires Tracked(s)
    ensures LoadsTracked(Cancelled(s.loads), s.active, s.nextLoad, s.cut + CutNow(s.loads))
    ensures forall id :: id in s.cut + CutNow(s.loads) ==>
      id < s.nextLoad && (Pending(Cancelled(s.loads), id) || ShownLate(s.shown, id))
  {
    CancelledDistinct(s.loads);
    forall l | l in Cancelled(s.loads)
      ensures l.cancelled && !l.stage.Resting? && l.id < s.nextLoad
      ensures l.id in s.cut + CutNow(s.loads) <==> l.stage.Saving?
    {
      CancelledFrom(s.loads, l);
      var m :| m in s.loads && !m.stage.Resting? && l == m.(cancelled := true);
      OneById(s.loads, m);
    }
    forall id | id in s.cut + CutNow(s.loads) && !ShownLate(s.shown, id)
      ensures id < s.nextLoad && Pending(Cancelled(s.loads), id) {
      var m :| m in s.loads && m.id == id;
      OneById(s.loads, m);
      assert m.stage.Saving?;
      CancelledFrom(s.loads, m.(cancelled := true));
    }
  }

  lemma OneById(loads: seq<Load>, m: Load)
    requires Distinct(loads) && m in loads
    ensures forall l :: l in loads && l.id == m.id ==> l == m
  {
  }

  lemma RemountTracks(s: State, ready: bool)
    requires Tracked(s)
    ensures Tracked(Remount(s, ready))
  {
    CancelTracks(s);
    var t, off := Remount(s, ready), Cancelled(s.loads);
    forall id | id in t.cut && !ShownLate(t.shown, id) ensures Pending(t.loads, id) {
      var l :| l in off && l.id == id;
      assert l in t.loads;
    }
    if t.loads != off {
      var made := Load(s.nextLoad, s.active.value, false, 0, Seeding);
      assert t.loads == off + [made];
      assert forall i :: 0 <= i < |off| ==> off[i] in off && off[i].id < s.nextLoad;
    }
  }

  /** A load moves on to another stage. */
  lemma MoveTracks(s: State, k: nat, l: Load, shown: seq<Showing>)
    requires Tracked(s) && k < |s.loads| && l.id == s.loads[k].id && l.chat == s.loads[k].chat
    requires l.cancelled == s.loads[k].cancelled
    requires (l.id in s.cut <==> l.cancelled && l.stage.Saving?) && (l.cancelled ==> !l.stage.Resting?)
    requires shown == s.shown || (shown == s.shown + [ShownBy(s, s.loads[k])] && !l.cancelled)
    ensures var loads := s.loads[k := l];
      && LoadsTracked(loads, s.mounted, s.nextLoad, s.cut)
      && (forall id :: id in s.cut ==> Pending(loads, id) || ShownLate(shown, id))
      && (forall e :: e in shown && e.load.Some? ==>
        if e.cancelled then e.load.value in s.cut else e.mounted == Some(e.chat))
  {
    var loads := s.loads[k := l];
    assert s.loads[k] in s.loads;
    forall m | m in loads ensures m == l || m in s.loads {
    }
    forall id | id in s.cut ensures Pending(loads, id) || ShownLate(shown, id) {
      if Pending(s.loads, id) {
        var i :| 0 <= i < |s.loads| && s.loads[i].id == id;
        assert loads[i] in loads;
      } else {
        var e :| e in s.shown && e.load == Some(id) && e.cancelled;
        assert e in shown;
      }
    }
  }

  /** A load ends; one that was cut ends by showing what it has. */
  lemma DropTracks(s: State, k: nat, shown: seq<Showing>)
    requires Tracked(s) && k < |s.loads|
    requires if s.loads[k].stage.Saving? then shown == s.shown + [ShownBy(s, s.loads[k])] else shown == s.shown
    ensures var loads := Without(s.loads, k);
      && LoadsTracked(loads, s.mounted, s.nextLoad, s.cut)
      && (forall id :: id in s.cut ==> Pending(loads, id) || ShownLate(shown, id))
      && (forall e :: e in shown && e.load.Some? ==>
        if e.cancelled then e.load.value in s.cut else e.mounted == Some(e.chat))
  {
    var loads, l := Without(s.loads, k), s.loads[k];
    assert l in s.loads;
    forall m | m in loads ensures m in s.loads {
    }
    forall id | id in s.cut ensures Pending(loads, id) || ShownLate(shown, id) {
      if ShownLate(s.shown, id) {
        var e :| e in s.shown && e.load == Some(id) && e.cancelled;
        assert e in shown;
      } else {
        var i :| 0 <= i < |s.loads| && s.loads[i].id == id;
        if i == k {
          assert ShownBy(s, l) in shown;
        } else {
          assert loads[if i < k then i else i - 1] == s.loads[i];
        }
      }
    }
  }

  lemma LoadStepTracks(s: State, a: Step, k: nat)
    requires Tracked(s) && Enabled(s, a) && MovesLoad(a, k)
    ensures Tracked(Next(s, a))
  {
    var t, l := Next(s, a), s.loads[k];
    assert l in s.loads;
    if |t.loads| == |s.loads| {
      assert t.loads == s.loads[k := t.loads[k]];
      MoveTracks(s, k, t.loads[k], t.shown);
    } else {
      DropTracks(s, k, t.shown);
    }
  }

  /** Which load a step belongs to. */
  predicate MovesLoad(a: Step, k: nat) {
    match a
    case Seeded(j, _) => j == k
    case Got(j, _) => j == k
    case Opened(j, _) => j == k
    case Saved(j, _) => j == k
    case LoadFails(j) => j == k
    case Timer(j) => j == k
    case _ => false
  }

  lemma DeliverTracks(s: State, k: nat, cached: bool)
    requires Tracked(s) && Enabled(s, PullCached(k, cached))
    ensures Tracked(Deliver(s, k, cached))
  {
    var t := Deliver(s, k, cached);
    DeliverParts(s, k, cached);
    assert t.mounted == s.mounted && t.nextLoad == s.nextLoad && t.cut == s.cut;
    forall id | id in s.cut && ShownLate(s.shown, id) ensures ShownLate(t.shown, id) {
      var e :| e in s.shown && e.load == Some(id) && e.cancelled;
      assert e in t.shown;
    }
  }

  lemma StepTracks(s: State, a: Step)
    requires Tracked(s) && Enabled(s, a)
    ensures Tracked(Next(s, a))
  {
    match a
    case Mount(ready) => RemountTracks(s, ready);
    case Seeded(k, _) => LoadStepTracks(s, a, k);
    case Got(k, _) => LoadStepTracks(s, a, k);
    case Opened(k, _) => LoadStepTracks(s, a, k);
    case Saved(k, _) => LoadStepTracks(s, a, k);
    case LoadFails(k) => LoadStepTracks(s, a, k);
    case Timer(k) => LoadStepTracks(s, a, k);
    case PullCached(k, cached) => DeliverTracks(s, k, cached);
    case _ =>
  }

  lemma {:induction false} RunTracks(s: State, run: seq<Step>)
    requires Tracked(s) && CanRun(s, run)
    ensures Tracked(Run(s, run))
    decreases |run|
  {
    if run != [] {
      StepTracks(s, run[0]);
      RunTracks(Next(s, run[0]), run[1..]);
    }
  }

  predicate Untouched(s: State, t: State) {
    t.store == s.store && t.feed == s.feed && t.acks == s.acks && t.shown == s.shown
  }

  /** What the end of a load leaves on screen: its newest rows and nothing else. */
  ghost predicate ScreenIs(t: State, l: Load)
    requires l.stage.Saving?
  {
    var out := l.stage.out;
    && |t.store| == |Newest(out)|
    && forall i :: 0 <= i < |t.store| ==> t.store[i].id == Newest(out)[i].id && t.store[i].chat == l.chat
  }

  lemma NewestMended(known: seq<Message>, out: seq<Message>, i: nat)
    requires i < |Newest(out)|
    ensures var t := Newest(MendAll(known, out));
      |t| == |Newest(out)| && t[i].id == Newest(out)[i].id && t[i].chat == Newest(out)[i].chat
  {
    var d := |out| - |Newest(out)|;
    assert Newest(out)[i] == out[i + d] && Newest(MendAll(known, out))[i] == Mend(known, out[i + d]);
  }

  lemma SaveShows(s: State, k: nat, cached: bool)
    requires Inv(s) && Enabled(s, Saved(k, cached))
    ensures ScreenIs(Save(s, k, cached), s.loads[k])
  {
    var out, t := s.loads[k].stage.out, Save(s, k, cached);
    assert LoadOk(s.loads[k]);
    SetMessagesShows(s.store, out);
    assert t.store == Newest(MendAll(s.store, out));
    forall i | 0 <= i < |t.store| ensures t.store[i].id == Newest(out)[i].id && t.store[i].chat == s.loads[k].chat {
      NewestMended(s.store, out, i);
      assert Newest(out)[i] in out;
    }
  }

  /** Over every run: a load that has been cancelled touches screen, cache and acks if
      and only if the clean-up came during its cache write. Then its last step fills
      the screen with its own chat's rows, whatever chat is open. */
  lemma CancelledExactly(me: User, run: seq<Step>, a: Step, k: nat)
    requires CanRun(Start(me), run) && Enabled(Run(Start(me), run), a) && Honest(Run(Start(me), run), a)
    requires MovesLoad(a, k) && Run(Start(me), run).loads[k].cancelled
    ensures var s := Run(Start(me), run); var t, l := Next(s, a), s.loads[k];
      && (Untouched(s, t) <==> l.id !in s.cut)
      && (l.id in s.cut ==> l.stage.Saving? && ScreenIs(t, l) && t.shown == s.shown + [ShownBy(s, l)])
  {
    var s := Run(Start(me), run);
    RunTracks(Start(me), run);
    RunKeeps(Start(me), run);
    assert s.loads[k] in s.loads;
    if a.Saved? {
      SaveShows(s, k, a.cached);
    }
  }

  /** Over every run: the loads cut are exactly those that have shown something after
      they were cancelled, or are still in the write after which they will. */
  lemma CutShows(me: User, run: seq<Step>, id: nat)
    requires CanRun(Start(me), run)
    ensures var s := Run(Start(me), run);
      id in s.cut <==>
        ShownLate(s.shown, id) || exists l :: l in s.loads && l.id == id && l.cancelled && l.stage.Saving?
  {
    var s := Run(Start(me), run);
    RunTracks(Start(me), run);
    if id in s.cut && !ShownLate(s.shown, id) {
      var l :| l in s.loads && l.id == id;
      assert l.cancelled && l.stage.Saving?;
    }
  }

  /** Over every run: rows of one chat come up while another is open only by a load,
      and by one not yet cancelled exactly when the chat was switched and the effects
      have not been set up again. */
  lemma ElsewhereExactly(me: User, run: seq<Step>, e: Showing)
    requires CanRun(Start(me), run) && e in Run(Start(me), run).shown
    ensures e.open != Some(e.chat) ==> e.load.Some?
    ensures e.load.Some? && !e.cancelled ==> (e.open != Some(e.chat) <==> e.open != e.mounted)
    ensures e.load.Some? && e.cancelled ==> e.load.value in Run(Start(me), run).cut
  {
    RunTracks(Start(me), run);
    RunKeeps(Start(me), run);
  }

  // ----------------------------------------- what an acknowledged row leaves

  /** On no screen and in no cache: the server is told to forget it, and it is gone. */
  ghost predicate Lost(t: State, id: Id) { Fresh(t.store, id) && id !in t.feed }

  /** A row of a pull that can be read is acknowledged and kept nowhere exactly when
      it was kept nowhere before, its cache write failed or it had been deleted, and
      either another chat is open or the screen is full of later messages. */
  lemma PullLosesExactly(s: State, k: nat, cached: bool)
    requires Inv(s) && Enabled(s, PullCached(k, cached))
    requires var p := s.pulls[k]; Readable(p.stage.rows[p.stage.i].text)
    ensures var p, t := s.pulls[k], Deliver(s, k, cached); var row := p.stage.rows[p.stage.i];
      && t.acks == s.acks + [Ack(row.id, row.text)]
      && (Lost(t, row.id) <==>
           (Lost(s, row.id) && (!cached || row.id in s.deleted) &&
            (s.active != Some(p.chat) || (|s.store| == RAM_LIMIT && row.at < s.store[0].at))))
  {
    var p := s.pulls[k];
    DeliverParts(s, k, cached);
    AppendMissesExactly(s.store, p.stage.rows[p.stage.i]);
  }

  lemma {:induction false} AckedWhich(out: seq<Message>, me: User, i: nat)
    requires i < |out| && out[i].sender != me && Readable(out[i].text)
    ensures Ack(out[i].id, out[i].text) in AcksOf(out, me)
    decreases |out|
  {
    if i > 0 {
      AckedWhich(out[1..], me, i - 1);
    }
  }

  lemma NewestHas(s: seq<Message>, i: nat)
    requires Unique(s) && i < |s|
    ensures Fresh(Newest(s), s[i].id) <==> i < |s| - RAM_LIMIT
  {
    var t, d := Newest(s), |s| - |Newest(s)|;
    assert forall j :: 0 <= j < |t| ==> t[j] == s[j + d];
    if i >= d {
      assert t[i - d] in t;
    }
  }

  lemma CachedWhich(s: State, out: seq<Message>, i: nat)
    requires Unique(out) && i < |out| && out[i].text != FAIL
    ensures out[i].id in PutAll(s.feed, s.deleted, Cacheable(out)) <==> out[i].id in s.feed || out[i].id !in s.deleted
  {
    CacheableLookUp(out, out[i].id, i);
    PutAllAt(s.feed, s.deleted, Cacheable(out), out[i].id);
  }

  /** A row of a load that is acknowledged is kept nowhere exactly when it was not
      cached before, the cache write failed or it had been deleted, and fifty of the
      load's rows come after it. */
  lemma LoadLosesExactly(s: State, k: nat, cached: bool, i: nat)
    requires Inv(s) && Enabled(s, Saved(k, cached)) && i < |s.loads[k].stage.out|
    requires var row := s.loads[k].stage.out[i]; row.sender != s.me && Readable(row.text)
    ensures var out, t := s.loads[k].stage.out, Save(s, k, cached); var row := out[i];
      && Ack(row.id, row.text) in t.acks
      && (Lost(t, row.id) <==> row.id !in s.feed && (!cached || row.id in s.deleted) && i < |out| - RAM_LIMIT)
  {
    var out := s.loads[k].stage.out;
    assert LoadOk(s.loads[k]);
    AckedWhich(out, s.me, i);
    SetMessagesShows(s.store, out);
    var mended := MendAll(s.store, out);
    assert Unique(mended) && mended[i].id == out[i].id;
    NewestHas(mended, i);
    CachedWhich(s, out, i);
  }

  lemma {:induction false} Extend(s: State, run: seq<Step>, a: Step)
    requires CanRun(s, run) && Enabled(Run(s, run), a) && Honest(Run(s, run), a)
    ensures CanRun(s, run + [a]) && Run(s, run + [a]) == Next(Run(s, run), a)
    decreases |run|
  {
    if run == [] {
      assert run + [a] == [a] && [a][1..] == [];
    } else {
      assert (run + [a])[1..] == run[1..] + [a];
      Extend(Next(s, run[0]), run[1..], a);
    }
  }

  /** A pull of chat 1 that has one row and is about to write it to the cache. */
  lemma PullOfOne(m: Message) returns (run: seq<Step>)
    requires m.text == "hi"
    ensures CanRun(Start(0), run)
    ensures Run(Start(0), run) == Start(0).(active := Some(1), pulls := [Pull(1, Caching([m], 0))])
  {
    assert WithTexts([m], ["hi"]) == [m];
    run := [];
    Extend(Start(0), run, Switch(Some(1)));
    run := run + [Switch(Some(1))];
    Extend(Start(0), run, StartPull);
    run := run + [StartPull];
    Extend(Start(0), run, PullGot(0, [m]));
    run := run + [PullGot(0, [m])];
    Extend(Start(0), run, PullOpened(0, ["hi"]));
    run := run + [PullOpened(0, ["hi"])];
  }

  /** Such a run: the cache write fails after the user has gone to another chat. */
  lemma AckedAndGone()
    ensures exists run :: CanRun(Start(0), run) && var s := Run(Start(0), run);
      Ack(7, "hi") in s.acks && 7 !in s.deleted && Lost(s, 7)
  {
    var m := Message(7, 1, 5, 100, "hi");
    var run := PullOfOne(m);
    Extend(Start(0), run, Switch(Some(2)));
    run := run + [Switch(Some(2))];
    assert Readable("hi");
    Extend(Start(0), run, PullCached(0, false));
    run := run + [PullCached(0, false)];
    assert Run(Start(0), run).acks == [Ack(7, "hi")];
  }

  /** A load of chat 1 that has one row and is about to write it to the cache. */
  lemma LoadOfOne(m: Message) returns (run: seq<Step>)
    requires m.chat == 1 && m.text == "hi"
    ensures CanRun(Start(0), run)
    ensures Run(Start(0), run) ==
      Start(0).(active := Some(1), loads := [Load(0, 1, false, 0, Saving([m]))], mounted := Some(1), nextLoad := 1)
  {
    run := [];
    Extend(Start(0), run, Switch(Some(1)));
    run := run + [Switch(Some(1))];
    Extend(Start(0), run, Mount(true));
    run := run + [Mount(true)];
    Extend(Start(0), run, Seeded(0, []));
    run := run + [Seeded(0, [])];
    Extend(Start(0), run, Got(0, [m]));
    run := run + [Got(0, [m])];
    LoadedOne(m);
    Extend(Start(0), run, Opened(0, ["hi"]));
    run := run + [Opened(0, ["hi"])];
  }

  /** In that window the rows of the old chat come up in the new one. */
  lemma StaleLoadShown()
    ensures exists run :: CanRun(Start(0), run) && var s := Run(Start(0), run);
      s.active == Some(2) && |s.store| == 1 && s.store[0].chat == 1
  {
    var m := Message(7, 1, 5, 100, "hi");
    var run := LoadOfOne(m);
    LoadedOne(m);
    Extend(Start(0), run, Switch(Some(2)));
    run := run + [Switch(Some(2))];
    Extend(Start(0), run, Mount(true));
    run := run + [Mount(true)];
    Extend(Start(0), run, Saved(0, true));
    run := run + [Saved(0, true)];
  }

  lemma LoadedOne(m: Message)
    requires m.text == "hi"
    ensures Loaded([], WithTexts([m], ["hi"])) == [m] && SetMessages([], [m]) == [m]
  {
    assert WithTexts([m], ["hi"]) == [m];
    assert MendAll([], [m]) == [m];
    assert [m][..0] == [];
    assert SortByTime([m]) == Insert(SortByTime([]), m);
  }

  // --------------------------------------------------- one pull as a loop

  /** The screen, cache and ack batch after the first `i` rows of a pull of `chat`;
      `open[j]` is the chat open when row `j` comes up, `cached[j]` whether its
      cache write succeeded. */
  datatype Progress = Progress(store: seq<Message>, feed: map<Id, Message>, ids: seq<Id>)

  function After(chat: Chat, rows: seq<Message>, open: seq<Option<Chat>>, cached: seq<bool>, deleted: set<Id>,
          p: Progress, i: nat): Progress
    requires i <= |rows| == |open| == |cached|
  {
    if i == 0 then p
    else
      var q, row := After(chat, rows, open, cached, deleted, p, i - 1), rows[i - 1];
      Progress(if open[i - 1] == Some(chat) then AppendMessage(q.store, row) else q.store,
               if cached[i - 1] then PutOne(q.feed, deleted, row) else q.feed,
               if Readable(row.text) then q.ids + [row.id] else q.ids)
  }

  class DeliverySync {
    var store: seq<Message>
    const cache: MessageCache

    constructor (cache: MessageCache)
      ensures this.cache == cache && store == []
    {
      this.cache := cache;
      store := [];
    }

    /** `pullPendingForChat` from the decrypted rows on. */
    method PullRows(chat: Chat, rows: seq<Message>, open: seq<Option<Chat>>, cached: seq<bool>) returns (ids: seq<Id>)
      requires |rows| == |open| == |cached|
      modifies this, cache
      ensures cache.deleted == old(cache.deleted)
      ensures Progress(store, cache.feed, ids) ==
        After(chat, rows, open, cached, cache.deleted, Progress(old(store), old(cache.feed), []), |rows|)
    {
      ids := [];
      for i := 0 to |rows|
        invariant cache.deleted == old(cache.deleted)
        invariant Progress(store, cache.feed, ids) ==
          After(chat, rows, open, cached, cache.deleted, Progress(old(store), old(cache.feed), []), i)
      {
        var row := rows[i];
        if cached[i] {
          cache.CacheMessage(row);
        }
        if open[i] == Some(chat) {
          store := AppendMessage(store, row);
        }
        if row.text != FAIL && row.text != KEY_CHANGE {
          ids := ids + [row.id];
        }
      }
    }
  }

  predicate ReadableBefore(rows: seq<Message>, i: nat, id: Id)
    requires i <= |rows|
  {
    exists j :: 0 <= j < i && rows[j].id == id && rows[j].text != FAIL && rows[j].text != KEY_CHANGE
  }

  lemma ReadableNext(rows: seq<Message>, i: nat, id: Id)
    requires i < |rows|
    ensures ReadableBefore(rows, i + 1, id) <==>
      ReadableBefore(rows, i, id) || (rows[i].id == id && Readable(rows[i].text))
  {
  }

  lemma BatchNext(chat: Chat, rows: seq<Message>, open: seq<Option<Chat>>, cached: seq<bool>, deleted: set<Id>,
          p: Progress, i: nat)
    requires 0 < i <= |rows| == |open| == |cached|
    ensures After(chat, rows, open, cached, deleted, p, i).ids ==
      After(chat, rows, open, cached, deleted, p, i - 1).ids +
        (if Readable(rows[i - 1].text) then [rows[i - 1].id] else [])
  {
  }

  /** The batch holds exactly the readable rows, */
  lemma {:induction false} PullBatch(chat: Chat, rows: seq<Message>, open: seq<Option<Chat>>, cached: seq<bool>,
          deleted: set<Id>, p: Progress, i: nat, id: Id)
    requires i <= |rows| == |open| == |cached| && p.ids == []
    ensures id in After(chat, rows, open, cached, deleted, p, i).ids <==> ReadableBefore(rows, i, id)
    decreases i
  {
    if i > 0 {
      PullBatch(chat, rows, open, cached, deleted, p, i - 1, id);
      BatchNext(chat, rows, open, cached, deleted, p, i);
      ReadableNext(rows, i - 1, id);
    }
  }

  /** what was readable on screen still is, */
  lemma {:induction false} PullKeepsScreen(chat: Chat, rows: seq<Message>, open: seq<Option<Chat>>, cached: seq<bool>,
          deleted: set<Id>, p: Progress, i: nat)
    requires i <= |rows| == |open| == |cached| && StoreOk(p.store)
    ensures StoreOk(After(chat, rows, open, cached, deleted, p, i).store)
    ensures i > 0 ==>
      NoneRegress(After(chat, rows, open, cached, deleted, p, i - 1).store,
        After(chat, rows, open, cached, deleted, p, i).store)
    decreases i
  {
    if i > 0 {
      PullKeepsScreen(chat, rows, open, cached, deleted, p, i - 1);
      AppendSound(After(chat, rows, open, cached, deleted, p, i - 1).store, rows[i - 1]);
      NoneRegressSelf(After(chat, rows, open, cached, deleted, p, i - 1).store);
    }
  }

  /** and while another chat is open the screen is not touched. */
  lemma {:induction false} PullElsewhere(chat: Chat, rows: seq<Message>, open: seq<Option<Chat>>, cached: seq<bool>,
          deleted: set<Id>, p: Progress, i: nat)
    requires i <= |rows| == |open| == |cached| && forall j :: 0 <= j < i ==> open[j] != Some(chat)
    ensures After(chat, rows, open, cached, deleted, p, i).store == p.store
    decreases i
  {
    if i > 0 {
      PullElsewhere(chat, rows, open, cached, deleted, p, i - 1);
    }
  }
}
