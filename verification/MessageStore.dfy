/**
  The list of messages on screen. Three paths write decrypted rows into it, and a
  slower one may bring a placeholder for a message another has already decrypted.
*/
module MessageStore {
  import opened Wrappers

  type Id(==) = nat
  type Chat(==) = nat
  type User(==) = nat

  const FAIL := "[DECRYPT_FAIL]"
  const KEY_CHANGE := "[KEY_CHANGE_DETECTED]"
  const RAM_LIMIT := 50

  datatype Message = Message(id: Id, chat: Chat, sender: User, at: int, text: string)

  /** A key-change notice is not bad: it is to be seen. */
  predicate Bad(text: string) { text == "" || text == FAIL }

  // ---------------------------------------------------------- sorting

  predicate Sorted(s: seq<Message>) { forall i, j :: 0 <= i < j < |s| ==> s[i].at <= s[j].at }

  ghost predicate Unique(s: seq<Message>) { forall i, j :: 0 <= i < j < |s| ==> s[i].id != s[j].id }

  /** Behind everything that is not later. */
  function Insert(s: seq<Message>, m: Message): seq<Message> {
    if s == [] then [m]
    else if m.at < s[0].at then [m] + s
    else [s[0]] + Insert(s[1..], m)
  }

  /** `sort` by creation time, which is stable. */
  function SortByTime(s: seq<Message>): seq<Message> {
    if s == [] then [] else Insert(SortByTime(s[..|s| - 1]), s[|s| - 1])
  }

  /** The messages of one instant, in order. */
  function Instant(s: seq<Message>, t: int): seq<Message> {
    if s == [] then [] else (if s[0].at == t then [s[0]] else []) + Instant(s[1..], t)
  }

  lemma {:induction false} InsertMembers(s: seq<Message>, m: Message)
    ensures forall x :: x in Insert(s, m) <==> x == m || x in s
    decreases |s|
  {
    if s != [] {
      InsertMembers(s[1..], m);
      assert s == [s[0]] + s[1..];
    }
  }

  lemma {:induction false} InsertSorts(s: seq<Message>, m: Message)
    requires Sorted(s)
    ensures Sorted(Insert(s, m))
    decreases |s|
  {
    if s != [] && m.at >= s[0].at {
      InsertSorts(s[1..], m);
      InsertMembers(s[1..], m);
      SortedCons(s[0], Insert(s[1..], m));
    }
  }

  lemma SortedCons(x: Message, t: seq<Message>)
    requires Sorted(t) && forall y :: y in t ==> x.at <= y.at
    ensures Sorted([x] + t)
  {
  }

  lemma {:induction false} InsertCounts(s: seq<Message>, m: Message)
    ensures multiset(Insert(s, m)) == multiset(s) + multiset{m}
    decreases |s|
  {
    if s != [] {
      assert s == [s[0]] + s[1..];
      if m.at >= s[0].at {
        InsertCounts(s[1..], m);
      }
    }
  }

  lemma {:induction false} InsertStable(s: seq<Message>, m: Message, t: int)
    requires Sorted(s)
    ensures Instant(Insert(s, m), t) == Instant(s, t) + (if m.at == t then [m] else [])
    decreases |s|
  {
    if s == [] {
      assert Instant([m], t) == (if m.at == t then [m] else []) + Instant([m][1..], t);
    } else if m.at < s[0].at {
      assert ([m] + s)[1..] == s;
      if m.at == t {
        NoneEarlier(s, t);
      }
    } else {
      InsertStable(s[1..], m, t);
      assert ([s[0]] + Insert(s[1..], m))[1..] == Insert(s[1..], m);
    }
  }

  lemma {:induction false} NoneEarlier(s: seq<Message>, t: int)
    requires Sorted(s) && (s != [] ==> t < s[0].at)
    ensures Instant(s, t) == []
    decreases |s|
  {
    if s != [] {
      NoneEarlier(s[1..], t);
    }
  }

  lemma Joined(x: seq<Message>, y: seq<Message>, z: seq<Message>)
    ensures x + (y + z) == x + y + z
  {
  }

  lemma {:induction false} InstantSnoc(s: seq<Message>, t: int)
    requires s != []
    ensures Instant(s, t) == Instant(s[..|s| - 1], t) + (if s[|s| - 1].at == t then [s[|s| - 1]] else [])
    decreases |s|
  {
    if |s| > 1 {
      InstantSnoc(s[1..], t);
      var front := s[..|s| - 1];
      assert s[1..][..|s| - 2] == front[1..] && front[0] == s[0];
      var last := s[|s| - 1];
      Joined(if s[0].at == t then [s[0]] else [], Instant(front[1..], t), if last.at == t then [last] else []);
    } else {
      assert s[1..] == [] && s[..0] == [];
    }
  }

  lemma {:induction false} SortSorts(s: seq<Message>)
    ensures Sorted(SortByTime(s)) && multiset(SortByTime(s)) == multiset(s)
    decreases |s|
  {
    if s != [] {
      var front, m := s[..|s| - 1], s[|s| - 1];
      SortSorts(front);
      InsertSorts(SortByTime(front), m);
      InsertCounts(SortByTime(front), m);
      assert s == front + [m];
    }
  }

  lemma {:induction false} SortKeepsInstants(s: seq<Message>, t: int)
    ensures Instant(SortByTime(s), t) == Instant(s, t)
    decreases |s|
  {
    if s != [] {
      var front, m := s[..|s| - 1], s[|s| - 1];
      SortKeepsInstants(front, t);
      SortSorts(front);
      InsertStable(SortByTime(front), m, t);
      InstantSnoc(s, t);
    }
  }

  /** Sorted, the same messages, and those of one instant in their old order. */
  lemma SortIsStable(s: seq<Message>)
    ensures Sorted(SortByTime(s)) && multiset(SortByTime(s)) == multiset(s)
    ensures forall t :: Instant(SortByTime(s), t) == Instant(s, t)
  {
    SortSorts(s);
    forall t ensures Instant(SortByTime(s), t) == Instant(s, t) {
      SortKeepsInstants(s, t);
    }
  }

  // ----------------------------------------------------------- mending

  /** A `Map` built from a list: the last one under an id. */
  function LookUp(s: seq<Message>, id: Id): (m: Option<Message>)
    ensures m.Some? ==> m.value in s && m.value.id == id
    ensures m.None? ==> forall i :: 0 <= i < |s| ==> s[i].id != id
  {
    if s == [] then None
    else if s[|s| - 1].id == id then Some(s[|s| - 1])
    else LookUp(s[..|s| - 1], id)
  }

  predicate GoodIn(s: seq<Message>, id: Id) { LookUp(s, id).Some? && !Bad(LookUp(s, id).value.text) }

  /** An empty or failed text gives way to a good one known for the message. */
  function Mend(known: seq<Message>, m: Message): Message {
    if Bad(m.text) && GoodIn(known, m.id) then m.(text := LookUp(known, m.id).value.text) else m
  }

  function MendAll(known: seq<Message>, s: seq<Message>): (t: seq<Message>)
    ensures |t| == |s|
  {
    seq(|s|, i requires 0 <= i < |s| => Mend(known, s[i]))
  }

  // ------------------------------------------------------------ store

  function Newest(s: seq<Message>): seq<Message> {
    if |s| <= RAM_LIMIT then s else s[|s| - RAM_LIMIT..]
  }

  function SetMessages(store: seq<Message>, nodes: seq<Message>): seq<Message> {
    Newest(SortByTime(MendAll(store, nodes)))
  }

  function IndexOf(s: seq<Message>, id: Id): (k: Option<nat>)
    ensures k.Some? ==> k.value < |s| && s[k.value].id == id
    ensures k.None? ==> forall i :: 0 <= i < |s| ==> s[i].id != id
  {
    if s == [] then None
    else if s[0].id == id then Some(0)
    else
      var k := IndexOf(s[1..], id);
      if k.Some? then Some(k.value + 1) else None
  }

  function AppendMessage(store: seq<Message>, node: Message): seq<Message> {
    var k := IndexOf(store, node.id);
    if k.Some? then
      if Bad(store[k.value].text) && !Bad(node.text)
      then Newest(SortByTime(store[k.value := store[k.value].(text := node.text)]))
      else store
    else Newest(SortByTime(store + [node]))
  }

  ghost predicate StoreOk(s: seq<Message>) { Sorted(s) && Unique(s) && |s| <= RAM_LIMIT }

  /** In `t`, no message has gone from a readable text to a placeholder. */
  ghost predicate NoneRegress(s: seq<Message>, t: seq<Message>) {
    forall i, j :: 0 <= i < |s| && 0 <= j < |t| && s[i].id == t[j].id && !Bad(s[i].text) ==> !Bad(t[j].text)
  }

  predicate Fresh(s: seq<Message>, id: Id) { forall x :: x in s ==> x.id != id }

  lemma {:induction false} InsertUnique(s: seq<Message>, m: Message)
    requires Unique(s) && Fresh(s, m.id)
    ensures Unique(Insert(s, m))
    decreases |s|
  {
    if s != [] && m.at >= s[0].at {
      InsertUnique(s[1..], m);
      InsertMembers(s[1..], m);
      var t := Insert(s[1..], m);
      forall j | 0 <= j < |t| ensures s[0].id != t[j].id {
        assert t[j] in t;
        assert s[0] in s;
      }
    }
  }

  lemma {:induction false} SortUnique(s: seq<Message>)
    requires Unique(s)
    ensures Unique(SortByTime(s))
    decreases |s|
  {
    if s != [] {
      var front, m := s[..|s| - 1], s[|s| - 1];
      SortUnique(front);
      SortSorts(front);
      forall x | x in SortByTime(front) ensures x.id != m.id {
        assert x in multiset(SortByTime(front));
        assert x in front;
      }
      InsertUnique(SortByTime(front), m);
    }
  }

  lemma SortMembers(s: seq<Message>, x: Message)
    ensures x in SortByTime(s) <==> x in s
  {
    SortSorts(s);
    assert x in SortByTime(s) <==> x in multiset(SortByTime(s));
  }

  lemma NewestOk(s: seq<Message>)
    requires Unique(s)
    ensures StoreOk(Newest(SortByTime(s)))
  {
    SortSorts(s);
    SortUnique(s);
  }

  /** Every message kept is one of those put in. */
  lemma NewestFrom(s: seq<Message>, x: Message)
    requires x in Newest(SortByTime(s))
    ensures x in s
  {
    SortMembers(s, x);
  }

  lemma LookUpUnique(s: seq<Message>, i: nat)
    requires Unique(s) && i < |s|
    ensures LookUp(s, s[i].id) == Some(s[i])
  {
    var m := LookUp(s, s[i].id).value;
    var j :| 0 <= j < |s| && s[j] == m;
  }

  /** A replacement of the list keeps it sorted and free of duplicates, and takes no
      readable text away from a message that stays. */
  lemma SetMessagesSound(store: seq<Message>, nodes: seq<Message>)
    requires Unique(store) && Unique(nodes)
    ensures StoreOk(SetMessages(store, nodes)) && NoneRegress(store, SetMessages(store, nodes))
  {
    var mended := MendAll(store, nodes);
    NewestOk(mended);
    var t := SetMessages(store, nodes);
    forall i, j | 0 <= i < |store| && 0 <= j < |t| && store[i].id == t[j].id && !Bad(store[i].text)
      ensures !Bad(t[j].text)
    {
      NewestFrom(mended, t[j]);
      var k :| 0 <= k < |mended| && mended[k] == t[j];
      LookUpUnique(store, i);
    }
  }

  /** So does an append. */
  lemma AppendSound(store: seq<Message>, node: Message)
    requires StoreOk(store)
    ensures StoreOk(AppendMessage(store, node)) && NoneRegress(store, AppendMessage(store, node))
  {
    var t, k := AppendMessage(store, node), IndexOf(store, node.id);
    if t != store {
      var base := if k.Some? then store[k.value := store[k.value].(text := node.text)] else store + [node];
      assert Unique(base);
      NewestOk(base);
      forall i, j | 0 <= i < |store| && 0 <= j < |t| && store[i].id == t[j].id && !Bad(store[i].text)
        ensures !Bad(t[j].text)
      {
        NewestFrom(base, t[j]);
        var b :| 0 <= b < |base| && base[b] == t[j];
        assert b == i;
      }
    }
  }

  lemma SortLength(s: seq<Message>)
    ensures |SortByTime(s)| == |s|
  {
    SortSorts(s);
    assert |multiset(SortByTime(s))| == |SortByTime(s)| && |multiset(s)| == |s|;
  }

  lemma Improved(store: seq<Message>, node: Message, i: nat)
    requires StoreOk(store) && i < |store| && store[i].id == node.id && store[i].text != node.text
    ensures Newest(SortByTime(store[i := store[i].(text := node.text)])) != store
  {
    var base := store[i := store[i].(text := node.text)];
    SortLength(base);
    SortMembers(base, base[i]);
    forall j | 0 <= j < |store| ensures store[j] != base[i] {
    }
  }

  /** Whether an append changes a message already on screen: exactly when it brings a
      readable text for a placeholder. A key-change notice for a message that reads
      well therefore does not get through by this path. */
  lemma AppendShows(store: seq<Message>, node: Message, i: nat)
    requires StoreOk(store) && i < |store| && store[i].id == node.id && store[i].text != node.text
    ensures AppendMessage(store, node) != store <==> Bad(store[i].text) && !Bad(node.text)
  {
    assert IndexOf(store, node.id) == Some(i);
    Improved(store, node, i);
  }

  // ------------------------------------------------ what stays on screen

  lemma {:induction false} InsertLast(s: seq<Message>, m: Message)
    requires forall x :: x in s ==> x.at <= m.at
    ensures Insert(s, m) == s + [m]
    decreases |s|
  {
    if s != [] {
      assert s[0] in s;
      InsertLast(s[1..], m);
      assert s + [m] == [s[0]] + (s[1..] + [m]);
    }
  }

  /** Sorting leaves a sorted list as it is. */
  lemma {:induction false} SortedSorts(s: seq<Message>)
    requires Sorted(s)
    ensures SortByTime(s) == s
    decreases |s|
  {
    if s != [] {
      var front := s[..|s| - 1];
      SortedSorts(front);
      InsertLast(front, s[|s| - 1]);
      assert s == front + [s[|s| - 1]];
    }
  }

  /** A sorted list replaces the screen by its newest messages, only texts mended. */
  lemma SetMessagesShows(store: seq<Message>, nodes: seq<Message>)
    requires Sorted(nodes)
    ensures SetMessages(store, nodes) == Newest(MendAll(store, nodes))
  {
    SortedSorts(MendAll(store, nodes));
  }

  lemma InsertFull(store: seq<Message>, node: Message)
    requires Sorted(store) && |store| == RAM_LIMIT && Fresh(store, node.id)
    ensures |Insert(store, node)| == RAM_LIMIT + 1
    ensures Fresh(Insert(store, node)[1..], node.id) <==> node.at < store[0].at
  {
    InsertCounts(store, node);
    assert |multiset(Insert(store, node))| == |Insert(store, node)| && |multiset(store)| == |store|;
    if node.at < store[0].at {
      assert ([node] + store)[1..] == store;
    } else {
      InsertMembers(store[1..], node);
      assert ([store[0]] + Insert(store[1..], node))[1..] == Insert(store[1..], node);
    }
  }

  lemma KeptOnScreen(store: seq<Message>, node: Message, k: nat)
    requires StoreOk(store) && k < |store| && store[k].id == node.id
    ensures !Fresh(AppendMessage(store, node), node.id)
  {
    assert store[k] in store;
    if AppendMessage(store, node) != store {
      var j := IndexOf(store, node.id).value;
      var base := store[j := store[j].(text := node.text)];
      SortLength(base);
      SortMembers(base, base[j]);
    }
  }

  lemma NewOnScreen(store: seq<Message>, node: Message)
    requires StoreOk(store) && Fresh(store, node.id)
    ensures Fresh(AppendMessage(store, node), node.id) <==> |store| == RAM_LIMIT && node.at < store[0].at
  {
    assert IndexOf(store, node.id).None?;
    assert (store + [node])[..|store|] == store;
    SortedSorts(store);
    assert AppendMessage(store, node) == Newest(Insert(store, node));
    if |store| == RAM_LIMIT {
      InsertFull(store, node);
    } else {
      InsertMembers(store, node);
      InsertCounts(store, node);
      assert |multiset(Insert(store, node))| == |Insert(store, node)| && |multiset(store)| == |store|;
    }
  }

  /** An appended message is not on screen afterwards exactly when it was not there
      before, the list is full, and all of it is later. */
  lemma AppendMissesExactly(store: seq<Message>, node: Message)
    requires StoreOk(store)
    ensures Fresh(AppendMessage(store, node), node.id) <==>
      Fresh(store, node.id) && |store| == RAM_LIMIT && node.at < store[0].at
  {
    if Fresh(store, node.id) {
      NewOnScreen(store, node);
    } else {
      var k :| 0 <= k < |store| && store[k].id == node.id;
      KeptOnScreen(store, node, k);
    }
  }

  // ------------------------------------------------- which messages they are

  lemma InsertDropsFirst(store: seq<Message>, node: Message)
    requires store != [] && node.at >= store[0].at
    ensures Insert(store, node)[1..] == Insert(store[1..], node)
  {
    assert ([store[0]] + Insert(store[1..], node))[1..] == Insert(store[1..], node);
  }

  /** A new message joins those on screen, as it came. If the list was full the
      earliest of them all makes room: the first one, or the new one itself. */
  lemma AppendNew(store: seq<Message>, node: Message)
    requires StoreOk(store) && Fresh(store, node.id)
    ensures var t := AppendMessage(store, node);
      if |store| < RAM_LIMIT then multiset(t) == multiset(store) + multiset{node}
      else if node.at < store[0].at then t == store
      else multiset(t) == multiset(store[1..]) + multiset{node}
  {
    assert IndexOf(store, node.id).None?;
    assert (store + [node])[..|store|] == store;
    SortedSorts(store);
    InsertCounts(store, node);
    SortLength(store + [node]);
    if |store| == RAM_LIMIT {
      if node.at < store[0].at {
        assert ([node] + store)[1..] == store;
      } else {
        InsertDropsFirst(store, node);
        InsertCounts(store[1..], node);
      }
    }
  }

  /** A message already on screen gets the new text, and nothing but the text, if its
      own is a placeholder and the new one is not; otherwise the list stays as it is. */
  lemma AppendKnown(store: seq<Message>, node: Message, i: nat)
    requires StoreOk(store) && i < |store| && store[i].id == node.id
    ensures AppendMessage(store, node) ==
      if store[i].text in {"", FAIL} && node.text !in {"", FAIL} then store[i := store[i].(text := node.text)]
      else store
  {
    assert IndexOf(store, node.id) == Some(i);
    SortedSorts(store[i := store[i].(text := node.text)]);
  }

  lemma InEither(t: seq<Message>, s: seq<Message>, node: Message, x: Message)
    requires multiset(t) == multiset(s) + multiset{node}
    ensures x in t <==> x == node || x in s
  {
    assert x in t <==> x in multiset(t);
    assert x in s <==> x in multiset(s);
  }

  lemma InRest(store: seq<Message>, x: Message)
    requires Unique(store) && store != []
    ensures x in store[1..] <==> x in store && x != store[0]
  {
    assert store == [store[0]] + store[1..];
    if x in store[1..] {
      var k :| 0 <= k < |store[1..]| && store[1..][k] == x;
      assert store[k + 1].id != store[0].id;
    }
  }

  /** So a message is there afterwards if and only if it is the new one or one from
      before, and has not had to make room. */
  lemma AppendNewHolds(store: seq<Message>, node: Message, x: Message)
    requires StoreOk(store) && Fresh(store, node.id)
    ensures x in AppendMessage(store, node) <==>
      (x == node || x in store) && (|store| == RAM_LIMIT ==> x != if node.at < store[0].at then node else store[0])
  {
    AppendNew(store, node);
    if |store| < RAM_LIMIT {
      InEither(AppendMessage(store, node), store, node, x);
    } else if node.at >= store[0].at {
      InEither(AppendMessage(store, node), store[1..], node, x);
      InRest(store, x);
    }
  }

  /** A replacement of the list by sorted rows shows the newest of them, each as it
      came unless it was a placeholder for a message that read well on screen: then
      with exactly the text that was on screen. */
  lemma SetMessagesTexts(store: seq<Message>, nodes: seq<Message>, i: nat)
    requires Unique(store) && Sorted(nodes) && i < |SetMessages(store, nodes)|
    ensures var t := SetMessages(store, nodes);
      && |t| == (if |nodes| <= RAM_LIMIT then |nodes| else RAM_LIMIT)
      && var n := nodes[|nodes| - |t| + i];
      && (forall m :: m in store && m.id == n.id && Bad(n.text) && !Bad(m.text) ==> t[i] == n.(text := m.text))
      && ((forall m :: m in store && m.id == n.id && Bad(n.text) ==> Bad(m.text)) ==> t[i] == n)
  {
    SetMessagesShows(store, nodes);
    var t := SetMessages(store, nodes);
    var n := nodes[|nodes| - |t| + i];
    assert t[i] == Mend(store, n);
    forall m | m in store && m.id == n.id && Bad(n.text) && !Bad(m.text) ensures t[i] == n.(text := m.text) {
      var k :| 0 <= k < |store| && store[k] == m;
      LookUpUnique(store, k);
    }
  }

  /** A key-change notice comes up by replacement of the list whatever stood there, and
      by append in place of a placeholder. */
  lemma NoticeShows(store: seq<Message>, nodes: seq<Message>, node: Message)
    requires StoreOk(store) && Sorted(nodes) && |nodes| <= RAM_LIMIT
    requires node in nodes && node.text == "[KEY_CHANGE_DETECTED]"
    ensures node in SetMessages(store, nodes)
    ensures forall i :: 0 <= i < |store| && store[i].id == node.id && store[i].text in {"", "[DECRYPT_FAIL]"} ==>
      AppendMessage(store, node) == store[i := store[i].(text := node.text)]
  {
    assert node.text[1] == 'K' && "[DECRYPT_FAIL]"[1] == 'D';
    SetMessagesShows(store, nodes);
    var j :| 0 <= j < |nodes| && nodes[j] == node;
    assert MendAll(store, nodes)[j] == node;
    forall i | 0 <= i < |store| && store[i].id == node.id && store[i].text in {"", "[DECRYPT_FAIL]"}
      ensures AppendMessage(store, node) == store[i := store[i].(text := node.text)]
    {
      AppendKnown(store, node, i);
    }
  }
}
