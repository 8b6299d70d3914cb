/**
  What the interleaved steps of `MessageDelivery` leave behind: the messages
  themselves on screen and in the cache, the acks, and that loads and pulls get
  there when nothing holds them up.
*/
module MessageOutcome {
  import opened Wrappers
  import opened MessageStore
  import opened MessageHistory
  import opened MessageDelivery

  // ------------------------------------------------------ one row of a pull

  /** One delivered row on screen: if its chat is the open one, it joins the list as it
      came, or gives a placeholder its text, or changes nothing. */
  lemma DeliverShows(s: State, k: nat, cached: bool)
    requires Inv(s) && Enabled(s, PullCached(k, cached))
    ensures var p, t := s.pulls[k], Next(s, PullCached(k, cached)); var row := p.stage.rows[p.stage.i];
      if s.active != Some(p.chat) then t.store == s.store
      else if Fresh(s.store, row.id) then
        if |s.store| < RAM_LIMIT then multiset(t.store) == multiset(s.store) + multiset{row}
        else if row.at < s.store[0].at then t.store == s.store
        else multiset(t.store) == multiset(s.store[1..]) + multiset{row}
      else
        forall i :: 0 <= i < |s.store| && s.store[i].id == row.id ==>
          t.store == if s.store[i].text in {"", FAIL} && row.text !in {"", FAIL}
                     then s.store[i := s.store[i].(text := row.text)] else s.store
  {
    DeliverParts(s, k, cached);
    var row := s.pulls[k].stage.rows[s.pulls[k].stage.i];
    if Fresh(s.store, row.id) {
      AppendNew(s.store, row);
    } else {
      forall i | 0 <= i < |s.store| && s.store[i].id == row.id
        ensures AppendMessage(s.store, row) == if s.store[i].text in {"", FAIL} && row.text !in {"", FAIL}
          then s.store[i := s.store[i].(text := row.text)] else s.store
      {
        AppendKnown(s.store, row, i);
      }
    }
  }

  /** In the cache: the row itself under its id, unless its write failed, it had been
      deleted or it could not be decrypted; everything else stays. On the ack list: the
      row, if it was decrypted and is no key-change notice. */
  lemma DeliverKeepsRow(s: State, k: nat, cached: bool, id: Id)
    requires Enabled(s, PullCached(k, cached))
    ensures var p, t := s.pulls[k], Next(s, PullCached(k, cached)); var row := p.stage.rows[p.stage.i];
      var written := id == row.id && cached && id !in s.deleted && row.text != FAIL;
      && (id in t.feed <==> written || id in s.feed)
      && (id in t.feed ==> t.feed[id] == if written then row else s.feed[id])
      && t.acks == s.acks + (if row.text != FAIL && row.text != KEY_CHANGE then [Ack(row.id, row.text)] else [])
  {
    DeliverParts(s, k, cached);
  }

  // ----------------------------------------------------- a pull as its steps

  function AckIds(acks: seq<Ack>): (ids: seq<Id>)
    ensures |ids| == |acks|
  {
    seq(|acks|, i requires 0 <= i < |acks| => acks[i].id)
  }

  /** The rows from `i` on, with the chat switched as given before each. */
  function PullSteps(k: nat, open: seq<Option<Chat>>, cached: seq<bool>, i: nat): seq<Step>
    requires i <= |open| == |cached|
    decreases |open| - i
  {
    if i == |open| then []
    else [Switch(open[i]), PullCached(k, cached[i])] + PullSteps(k, open, cached, i + 1)
  }

  lemma TwoSteps(s: State, a: Step, b: Step, rest: seq<Step>)
    requires Enabled(s, a) && Honest(s, a) && Enabled(Next(s, a), b) && Honest(Next(s, a), b)
    requires CanRun(Next(Next(s, a), b), rest)
    ensures CanRun(s, [a, b] + rest) && Run(s, [a, b] + rest) == Run(Next(Next(s, a), b), rest)
  {
    assert ([a, b] + rest)[1..] == [b] + rest && ([b] + rest)[1..] == rest;
  }

  lemma PullMovesOn(s: State, k: nat, chat: Chat, rows: seq<Message>, i: nat, cached: bool)
    requires k < |s.pulls| && s.pulls[k] == Pull(chat, Caching(rows, i)) && i < |rows|
    ensures Next(s, PullCached(k, cached)).pulls ==
      if i + 1 < |rows| then s.pulls[k := Pull(chat, Caching(rows, i + 1))] else Without(s.pulls, k)
  {
  }

  lemma RowStep(s: State, k: nat, chat: Chat, rows: seq<Message>, open: seq<Option<Chat>>, cached: seq<bool>,
          p: Progress, i: nat, before: seq<Id>) returns (t: State)
    requires k < |s.pulls| && s.pulls[k] == Pull(chat, Caching(rows, i)) && i < |rows| == |open| == |cached|
    requires var q := After(chat, rows, open, cached, s.deleted, p, i);
      s.store == q.store && s.feed == q.feed && AckIds(s.acks) == before + q.ids
    ensures Enabled(s.(active := open[i]), PullCached(k, cached[i]))
    ensures t == Next(s.(active := open[i]), PullCached(k, cached[i])) && t.deleted == s.deleted
    ensures var q := After(chat, rows, open, cached, s.deleted, p, i + 1);
      t.store == q.store && t.feed == q.feed && AckIds(t.acks) == before + q.ids
    ensures t.pulls == if i + 1 < |rows| then s.pulls[k := Pull(chat, Caching(rows, i + 1))] else Without(s.pulls, k)
  {
    var u, row := s.(active := open[i]), rows[i];
    t := Next(u, PullCached(k, cached[i]));
    DeliverParts(u, k, cached[i]);
    PullMovesOn(u, k, chat, rows, i, cached[i]);
    if Readable(row.text) {
      assert AckIds(s.acks + [Ack(row.id, row.text)]) == AckIds(s.acks) + [row.id];
    }
  }

  lemma {:induction false} StepsAreLoop(s: State, k: nat, chat: Chat, rows: seq<Message>, open: seq<Option<Chat>>,
          cached: seq<bool>, p: Progress, i: nat, before: seq<Id>)
    requires k < |s.pulls| && s.pulls[k] == Pull(chat, Caching(rows, i)) && i < |rows| == |open| == |cached|
    requires var q := After(chat, rows, open, cached, s.deleted, p, i);
      s.store == q.store && s.feed == q.feed && AckIds(s.acks) == before + q.ids
    ensures CanRun(s, PullSteps(k, open, cached, i))
    ensures var t, q := Run(s, PullSteps(k, open, cached, i)), After(chat, rows, open, cached, s.deleted, p, |rows|);
      t.store == q.store && t.feed == q.feed && AckIds(t.acks) == before + q.ids && t.pulls == Without(s.pulls, k)
    decreases |rows| - i
  {
    var t := RowStep(s, k, chat, rows, open, cached, p, i, before);
    if i + 1 < |rows| {
      StepsAreLoop(t, k, chat, rows, open, cached, p, i + 1, before);
      assert Without(t.pulls, k) == Without(s.pulls, k);
    }
    assert i + 1 == |rows| ==> PullSteps(k, open, cached, i + 1) == [];
    TwoSteps(s, Switch(open[i]), PullCached(k, cached[i]), PullSteps(k, open, cached, i + 1));
  }

  /** Row by row, with the chat switched at will in between, the steps of a pull do
      what its loop does, and then the pull is over. */
  lemma PullIsLoop(s: State, k: nat, chat: Chat, rows: seq<Message>, open: seq<Option<Chat>>, cached: seq<bool>)
    requires k < |s.pulls| && s.pulls[k] == Pull(chat, Caching(rows, 0)) && 0 < |rows| == |open| == |cached|
    ensures CanRun(s, PullSteps(k, open, cached, 0))
    ensures var t := Run(s, PullSteps(k, open, cached, 0));
      var q := After(chat, rows, open, cached, s.deleted, Progress(s.store, s.feed, []), |rows|);
      && t.store == q.store && t.feed == q.feed && AckIds(t.acks) == AckIds(s.acks) + q.ids
      && t.pulls == Without(s.pulls, k)
  {
    StepsAreLoop(s, k, chat, rows, open, cached, Progress(s.store, s.feed, []), 0, AckIds(s.acks));
  }

  // ----------------------------------------------------- the end of a load

  /** The newest rows of `out` and nothing else, each as it is in `out` unless it is a
      placeholder there for which the screen had a text. */
  ghost predicate Shows(store: seq<Message>, out: seq<Message>) {
    && |store| == (if |out| <= RAM_LIMIT then |out| else RAM_LIMIT)
    && forall i :: 0 <= i < |store| ==>
      var n := out[|out| - |store| + i];
      store[i] == n || (n.text in {"", FAIL} && store[i].text !in {"", FAIL} && store[i] == n.(text := store[i].text))
  }

  lemma SetMessagesShow(store: seq<Message>, nodes: seq<Message>)
    requires Unique(store) && Sorted(nodes)
    ensures Shows(SetMessages(store, nodes), nodes)
  {
    SetMessagesShows(store, nodes);
    var t := SetMessages(store, nodes);
    forall i | 0 <= i < |t|
      ensures var n := nodes[|nodes| - |t| + i];
        t[i] == n || (n.text in {"", FAIL} && t[i].text !in {"", FAIL} && t[i] == n.(text := t[i].text))
    {
      assert t[i] == Mend(store, nodes[|nodes| - |t| + i]);
    }
  }

  lemma {:induction false} AcksExactly(out: seq<Message>, me: User, a: Ack)
    ensures a in AcksOf(out, me) <==>
      exists m :: m in out && m.sender != me && m.text != FAIL && m.text != KEY_CHANGE && a == Ack(m.id, m.text)
    decreases |out|
  {
    if out != [] {
      AcksExactly(out[1..], me, a);
      assert out == [out[0]] + out[1..];
      if a == Ack(out[0].id, out[0].text) && out[0].sender != me && Readable(out[0].text) {
        assert out[0] in out;
      }
    }
  }

  /** A load that ends leaves its rows on screen, each row that was decrypted and is not
      deleted in the cache as it is, and acknowledges exactly the rows of others that
      were decrypted and are no key-change notices. */
  lemma SaveLeaves(s: State, k: nat, cached: bool, i: nat, a: Ack)
    requires Inv(s) && Enabled(s, Saved(k, cached)) && i < |s.loads[k].stage.out|
    ensures var out, t := s.loads[k].stage.out, Next(s, Saved(k, cached));
      && Shows(t.store, out)
      && (cached && out[i].text != FAIL && out[i].id !in s.deleted ==>
            out[i].id in t.feed && t.feed[out[i].id] == out[i])
      && (!cached ==> t.feed == s.feed)
      && (a in t.acks <==>
            a in s.acks || exists m :: m in out && m.sender != s.me && m.text != FAIL && m.text != KEY_CHANGE &&
                                       a == Ack(m.id, m.text))
  {
    var out := s.loads[k].stage.out;
    assert LoadOk(s.loads[k]);
    SetMessagesShow(s.store, out);
    AcksExactly(out, s.me, a);
    CacheableLookUp(out, out[i].id, i);
    PutAllAt(s.feed, s.deleted, Cacheable(out), out[i].id);
  }

  // ------------------------------------------------ loads do get to the end

  lemma MountStarts(s: State)
    requires s.active.Some?
    ensures var t := Next(s, Mount(true));
      && t.loads == Cancelled(s.loads) + [Load(s.nextLoad, s.active.value, false, 0, Seeding)]
      && t == s.(loads := t.loads, cut := t.cut, mounted := s.active, nextLoad := s.nextLoad + 1)
  {
  }

  /** From a chat that is opened to what its load puts on screen, whether or not the
      first attempt fails. */
  lemma LoadLands(s: State, chat: Chat, fails: bool, seed0: seq<Message>, seed: seq<Message>, rows: seq<Message>,
          texts: seq<string>, cached: bool) returns (run: seq<Step>)
    requires Inv(s) && s.active == Some(chat) && Unique(rows) && AllOf(chat, rows) && |texts| == |rows|
    requires forall x :: x in [seed0, seed] ==> x == [] || IsRecent(s.feed, chat, x)
    ensures CanRun(s, run) && run != [] && run[0] == Mount(true)
    ensures var t, out := Run(s, run), Loaded(seed, WithTexts(rows, texts));
      Shows(t.store, out) && t.loads == Cancelled(s.loads) && t.acks == s.acks + AcksOf(out, s.me)
  {
    var k := |Cancelled(s.loads)|;
    var u;
    run, u := UpToFetch(s, chat, fails, seed0, seed);
    StepRun(s, run, Got(k, rows));
    var v := Next(u, Got(k, rows));
    run := run + [Got(k, rows)];
    LoadedOk(chat, seed, rows, texts);
    StepRun(s, run, Opened(k, texts));
    run := run + [Opened(k, texts)];
    RunKeeps(s, run);
    SaveLands(Run(s, run), k, cached);
    StepRun(s, run, Saved(k, cached));
    run := run + [Saved(k, cached)];
  }

  lemma SaveLands(s: State, k: nat, cached: bool)
    requires Inv(s) && Enabled(s, Saved(k, cached)) && k == |s.loads| - 1
    ensures var out, t := s.loads[k].stage.out, Next(s, Saved(k, cached));
      Shows(t.store, out) && t.loads == s.loads[..k] && t.acks == s.acks + AcksOf(out, s.me)
  {
    assert LoadOk(s.loads[k]);
    SetMessagesShow(s.store, s.loads[k].stage.out);
  }

  lemma StepRun(s: State, run: seq<Step>, a: Step)
    requires CanRun(s, run) && Enabled(Run(s, run), a) && Honest(Run(s, run), a)
    ensures CanRun(s, run + [a]) && Run(s, run + [a]) == Next(Run(s, run), a)
  {
    Extend(s, run, a);
  }

  /** Up to the answer of the server: a load at its first or second attempt. */
  lemma UpToFetch(s: State, chat: Chat, fails: bool, seed0: seq<Message>, seed: seq<Message>)
    returns (run: seq<Step>, t: State)
    requires Inv(s) && s.active == Some(chat)
    requires forall x :: x in [seed0, seed] ==> x == [] || IsRecent(s.feed, chat, x)
    ensures CanRun(s, run) && t == Run(s, run) && run != [] && run[0] == Mount(true)
    ensures t.loads ==
      Cancelled(s.loads) + [Load(s.nextLoad, chat, false, if fails then 1 else 0, Fetching(seed))]
    ensures t.acks == s.acks && t.feed == s.feed && t.me == s.me
  {
    var k := |Cancelled(s.loads)|;
    MountStarts(s);
    run := [];
    StepRun(s, run, Mount(true));
    run := run + [Mount(true)];
    if fails {
      run := FirstFails(s, chat, seed0);
    }
    assert seed in [seed0, seed];
    StepRun(s, run, Seeded(k, seed));
    run := run + [Seeded(k, seed)];
    t := Run(s, run);
  }

  lemma FirstFails(s: State, chat: Chat, seed0: seq<Message>) returns (run: seq<Step>)
    requires Inv(s) && s.active == Some(chat) && (seed0 == [] || IsRecent(s.feed, chat, seed0))
    ensures CanRun(s, run) && run != [] && run[0] == Mount(true)
    ensures var t := Run(s, run);
      && t.loads == Cancelled(s.loads) + [Load(s.nextLoad, chat, false, 1, Seeding)]
      && t.acks == s.acks && t.feed == s.feed && t.me == s.me
  {
    var k := |Cancelled(s.loads)|;
    run := FirstSeeded(s, chat, seed0);
    StepRun(s, run, LoadFails(k));
    run := run + [LoadFails(k)];
    StepRun(s, run, Timer(k));
    run := run + [Timer(k)];
  }

  lemma FirstSeeded(s: State, chat: Chat, seed0: seq<Message>) returns (run: seq<Step>)
    requires Inv(s) && s.active == Some(chat) && (seed0 == [] || IsRecent(s.feed, chat, seed0))
    ensures CanRun(s, run) && run != [] && run[0] == Mount(true)
    ensures var t := Run(s, run);
      && t.loads == Cancelled(s.loads) + [Load(s.nextLoad, chat, false, 0, Fetching(seed0))]
      && t.acks == s.acks && t.feed == s.feed && t.me == s.me
  {
    var k := |Cancelled(s.loads)|;
    MountStarts(s);
    run := [];
    StepRun(s, run, Mount(true));
    run := run + [Mount(true)];
    StepRun(s, run, Seeded(k, seed0));
    run := run + [Seeded(k, seed0)];
  }

  /** A second failure ends the load: no third attempt, nothing acknowledged or cached,
      and the cached messages stay on screen. */
  lemma SecondFailureEnds(s: State, chat: Chat, seed: seq<Message>) returns (run: seq<Step>)
    requires Inv(s) && s.active == Some(chat) && seed != [] && IsRecent(s.feed, chat, seed)
    ensures CanRun(s, run)
    ensures var t := Run(s, run);
      t.loads == Cancelled(s.loads) && t.acks == s.acks && t.feed == s.feed && Shows(t.store, seed)
  {
    var k := |Cancelled(s.loads)|;
    run := FirstFails(s, chat, seed);
    var u := Run(s, run);
    RunKeeps(s, run);
    SetMessagesShow(u.store, seed);
    StepRun(s, run, Seeded(k, seed));
    run := run + [Seeded(k, seed)];
    StepRun(s, run, LoadFails(k));
    run := run + [LoadFails(k)];
  }

  /** Setting up the effects empties the screen exactly when no chat is open, and starts
      no load while the session is not ready. */
  lemma MountShows(s: State, ready: bool)
    requires Inv(s)
    ensures var t := Next(s, Mount(ready));
      && t.store == (if s.active.None? then [] else s.store)
      && (s.active.None? || !ready ==> t.loads == Cancelled(s.loads))
  {
    assert MendAll(s.store, []) == [];
  }

  // -------------------------------------------------------------- deletion

  /** A deleted message is cached no more, whatever loads and pulls under way bring. */
  lemma {:induction false} DeletedStays(s: State, run: seq<Step>, id: Id)
    requires Inv(s) && id in s.deleted && CanRun(s, run)
    ensures id in Run(s, run).deleted && id !in Run(s, run).feed
    decreases |run|
  {
    if run != [] {
      StepKeeps(s, run[0]);
      DeletedStays(Next(s, run[0]), run[1..], id);
    }
  }

  lemma DeleteForGood(s: State, run: seq<Step>, id: Id)
    requires Inv(s) && CanRun(Next(s, Delete(id)), run)
    ensures id !in Run(Next(s, Delete(id)), run).feed
  {
    StepKeeps(s, Delete(id));
    DeletedStays(Next(s, Delete(id)), run, id);
  }
}
