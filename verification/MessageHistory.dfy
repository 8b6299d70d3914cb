/**
  Loading a chat: the cached messages seed the screen and mend what the fresh
  decryption of the server's rows could not read; the result is sorted, cached,
  shown and acknowledged.
*/
module MessageHistory {
  import opened Wrappers
  import opened MessageStore

  const SEED_LIMIT := 50

  // ------------------------------------------------------------- cache

  /** The message cache. `deleted` is never written again. */
  class MessageCache {
    var feed: map<Id, Message>
    var deleted: set<Id>

    constructor ()
      ensures feed == map[] && deleted == {}
    {
      feed, deleted := map[], {};
    }

    method CacheMessages(nodes: seq<Message>)
      modifies this
      ensures deleted == old(deleted) && feed == PutAll(old(feed), deleted, nodes)
    {
      var i := 0;
      while i < |nodes|
        invariant i <= |nodes| && deleted == old(deleted)
        invariant feed == PutAll(old(feed), deleted, nodes[..i])
      {
        assert nodes[..i + 1][..i] == nodes[..i];
        if nodes[i].id !in deleted {
          feed := feed[nodes[i].id := nodes[i]];
        }
        i := i + 1;
      }
      assert nodes[..i] == nodes;
    }

    method CacheMessage(node: Message)
      modifies this
      ensures deleted == old(deleted) && feed == PutOne(old(feed), deleted, node)
    {
      if node.id in deleted || node.text == FAIL {
        return;
      }
      feed := feed[node.id := node];
    }

    method DeleteCachedMessage(id: Id)
      modifies this
      ensures deleted == old(deleted) + {id} && feed == old(feed) - {id}
    {
      deleted := deleted + {id};
      feed := feed - {id};
    }
  }

  function PutAll(feed: map<Id, Message>, deleted: set<Id>, nodes: seq<Message>): map<Id, Message> {
    if nodes == [] then feed
    else
      var m := nodes[|nodes| - 1];
      var before := PutAll(feed, deleted, nodes[..|nodes| - 1]);
      if m.id in deleted then before else before[m.id := m]
  }

  function PutOne(feed: map<Id, Message>, deleted: set<Id>, node: Message): map<Id, Message> {
    if node.id in deleted || node.text == FAIL then feed else feed[node.id := node]
  }

  /** Under its id, no failed text, and nothing deleted. */
  ghost predicate FeedOk(feed: map<Id, Message>, deleted: set<Id>) {
    forall id :: id in feed ==> feed[id].id == id && feed[id].text != FAIL && id !in deleted
  }

  lemma {:induction false} PutAllAt(feed: map<Id, Message>, deleted: set<Id>, nodes: seq<Message>, id: Id)
    ensures var m := LookUp(nodes, id); var t := PutAll(feed, deleted, nodes);
      if m.Some? && id !in deleted then id in t && t[id] == m.value
      else (id in t <==> id in feed) && (id in t ==> t[id] == feed[id])
    decreases |nodes|
  {
    if nodes != [] {
      PutAllAt(feed, deleted, nodes[..|nodes| - 1], id);
    }
  }

  /** `getRecentCachedMessages`: the newest cached messages of the chat, in order. */
  ghost predicate IsRecent(feed: map<Id, Message>, chat: Chat, seed: seq<Message>) {
    && Sorted(seed) && Unique(seed) && |seed| <= SEED_LIMIT
    && (forall m :: m in seed ==> m.chat == chat && m.id in feed && feed[m.id] == m)
    && (forall id :: id in feed && feed[id].chat == chat && feed[id] !in seed ==>
          |seed| == SEED_LIMIT && forall m :: m in seed ==> feed[id].at <= m.at)
  }

  // -------------------------------------------------------------- load

  /** `decryptApiMessageRows`: one output per row, in order, only the text new. */
  function WithTexts(rows: seq<Message>, texts: seq<string>): (out: seq<Message>)
    requires |texts| == |rows|
    ensures |out| == |rows|
  {
    seq(|rows|, i requires 0 <= i < |rows| => rows[i].(text := texts[i]))
  }

  /** What a load shows and works on from then. */
  function Loaded(seed: seq<Message>, out: seq<Message>): seq<Message> {
    SortByTime(MendAll(seed, out))
  }

  function Cacheable(out: seq<Message>): seq<Message> {
    if out == [] then []
    else (if out[0].text != FAIL then [out[0]] else []) + Cacheable(out[1..])
  }

  predicate Readable(text: string) { text != FAIL && text != KEY_CHANGE }

  function IncomingIds(out: seq<Message>, me: User): seq<Id> {
    if out == [] then []
    else (if out[0].sender != me && Readable(out[0].text) then [out[0].id] else []) + IncomingIds(out[1..], me)
  }

  function Blank(s: seq<Message>): (t: seq<Message>)
    ensures |t| == |s|
  {
    seq(|s|, i requires 0 <= i < |s| => s[i].(text := ""))
  }

  lemma {:induction false} BlankInsert(s: seq<Message>, m: Message)
    ensures Blank(Insert(s, m)) == Insert(Blank(s), m.(text := ""))
    decreases |s|
  {
    if s == [] {
      assert Blank([m]) == [m.(text := "")];
    } else if m.at < s[0].at {
      assert Blank([m] + s) == [m.(text := "")] + Blank(s);
    } else {
      BlankInsert(s[1..], m);
      assert Blank(s)[1..] == Blank(s[1..]);
      assert Blank([s[0]] + Insert(s[1..], m)) == [s[0].(text := "")] + Blank(Insert(s[1..], m));
    }
  }

  lemma {:induction false} BlankSort(s: seq<Message>)
    ensures Blank(SortByTime(s)) == SortByTime(Blank(s))
    decreases |s|
  {
    if s != [] {
      BlankSort(s[..|s| - 1]);
      BlankInsert(SortByTime(s[..|s| - 1]), s[|s| - 1]);
      assert Blank(s)[..|s| - 1] == Blank(s[..|s| - 1]);
    }
  }

  /** A load's result is the server's rows sorted by creation time, rows of one
      instant in the server's order; only texts were touched. */
  lemma LoadedIsSorted(seed: seq<Message>, out: seq<Message>)
    ensures Sorted(Loaded(seed, out))
    ensures multiset(Blank(Loaded(seed, out))) == multiset(Blank(out))
    ensures forall t :: Instant(Blank(Loaded(seed, out)), t) == Instant(Blank(out), t)
  {
    SortIsStable(MendAll(seed, out));
    BlankSort(MendAll(seed, out));
    assert Blank(MendAll(seed, out)) == Blank(out);
    SortIsStable(Blank(out));
  }

  predicate Mended(seed: seq<Message>, row: Message, m: Message) {
    && m.(text := "") == row.(text := "")
    && (row.text !in {"", FAIL} || Fresh(seed, row.id) ==> m == row)
    && (forall x :: x in seed && x.id == row.id && row.text in {"", FAIL} ==>
          m.text == if x.text in {"", FAIL} then row.text else x.text)
  }

  /** A row that can be read keeps its own text; one that cannot gets exactly the text
      the seed has for it, if that can be read; otherwise it is left as it is. */
  lemma LoadedTexts(seed: seq<Message>, out: seq<Message>, i: nat)
    requires i < |out| && Unique(seed)
    ensures exists m :: m in Loaded(seed, out) && Mended(seed, out[i], m)
  {
    var m := Mend(seed, out[i]);
    SortMembers(MendAll(seed, out), MendAll(seed, out)[i]);
    forall x | x in seed && x.id == out[i].id ensures LookUp(seed, out[i].id) == Some(x) {
      var k :| 0 <= k < |seed| && seed[k] == x;
      LookUpUnique(seed, k);
    }
    assert m in Loaded(seed, out);
  }

  lemma {:induction false} IncomingExactly(out: seq<Message>, me: User, id: Id)
    ensures id in IncomingIds(out, me) <==> exists m :: m in out && m.id == id && m.sender != me && Readable(m.text)
    decreases |out|
  {
    if out != [] {
      IncomingExactly(out[1..], me, id);
      assert out == [out[0]] + out[1..];
      if out[0].id == id && out[0].sender != me && Readable(out[0].text) {
        assert out[0] in out;
      }
    }
  }

  /** A load acknowledges exactly the rows from others that it could read or mend. */
  lemma LoadAcks(seed: seq<Message>, out: seq<Message>, me: User, id: Id)
    ensures id in IncomingIds(Loaded(seed, out), me) <==>
      exists i :: 0 <= i < |out| && out[i].id == id && out[i].sender != me &&
        Mend(seed, out[i]).text != FAIL && Mend(seed, out[i]).text != KEY_CHANGE
  {
    var t, mended := Loaded(seed, out), MendAll(seed, out);
    IncomingExactly(t, me, id);
    if id in IncomingIds(t, me) {
      var m :| m in t && m.id == id && m.sender != me && Readable(m.text);
      SortMembers(mended, m);
      var i :| 0 <= i < |mended| && mended[i] == m;
      assert out[i].id == id;
    }
    if i :| 0 <= i < |out| && out[i].id == id && out[i].sender != me && Readable(Mend(seed, out[i]).text) {
      SortMembers(mended, mended[i]);
      assert mended[i] in t;
    }
  }

  lemma {:induction false} CacheableLookUp(out: seq<Message>, id: Id, i: nat)
    requires Unique(out) && i < |out| && out[i].id == id
    ensures LookUp(Cacheable(out), id) == if out[i].text == FAIL then None else Some(out[i])
    decreases |out|
  {
    CacheableMembers(out, out[i]);
    var c := LookUp(Cacheable(out), id);
    if c.Some? {
      CacheableMembers(out, c.value);
      var j :| 0 <= j < |out| && out[j] == c.value;
      assert j == i;
    }
  }

  lemma {:induction false} CacheableMembers(out: seq<Message>, m: Message)
    ensures m in Cacheable(out) <==> m in out && m.text != FAIL
    decreases |out|
  {
    if out != [] {
      CacheableMembers(out[1..], m);
      assert out == [out[0]] + out[1..];
    }
  }

  function CacheAfter(feed: map<Id, Message>, deleted: set<Id>, seed: seq<Message>,
          out: seq<Message>): map<Id, Message> {
    PutAll(feed, deleted, Cacheable(Loaded(seed, out)))
  }

  /** A cached readable text is overwritten by an empty one exactly when the row came
      out empty and the seed, which holds only the newest fifty, does not have it.
      A failed decryption never overwrites it. */
  lemma CacheLosesExactly(feed: map<Id, Message>, deleted: set<Id>, seed: seq<Message>, out: seq<Message>, i: nat)
    requires FeedOk(feed, deleted) && Unique(out) && i < |out| && out[i].id in feed && !Bad(feed[out[i].id].text)
    ensures var t := CacheAfter(feed, deleted, seed, out); var id := out[i].id;
      id in t && (Bad(t[id].text) <==> out[i].text == "" && !GoodIn(seed, id))
  {
    var mended := MendAll(seed, out);
    var t, id := Loaded(seed, out), out[i].id;
    SortUnique(mended);
    SortMembers(mended, mended[i]);
    var k :| 0 <= k < |t| && t[k] == mended[i];
    CacheableLookUp(t, id, k);
    PutAllAt(feed, deleted, Cacheable(t), id);
  }

  /** The single-row write of the pulls has no such guard: an empty text always gets in. */
  lemma SingleWriteLosesExactly(feed: map<Id, Message>, deleted: set<Id>, row: Message)
    requires FeedOk(feed, deleted) && row.id in feed && !Bad(feed[row.id].text)
    ensures row.id in PutOne(feed, deleted, row)
    ensures Bad(PutOne(feed, deleted, row)[row.id].text) <==> row.text == ""
  {
  }

  /** A load whose seed could not be read replaces a cached text by an empty one. */
  lemma CacheCanLose()
    ensures exists feed: map<Id, Message>, out: seq<Message> ::
      (FeedOk(feed, {}) && |out| == 1 && out[0].id in feed && feed[out[0].id].text == "hi" &&
       out[0].id in CacheAfter(feed, {}, [], out) && Bad(CacheAfter(feed, {}, [], out)[out[0].id].text))
  {
    var m := Message(7, 1, 5, 100, "hi");
    var feed, out := map[7 := m], [m.(text := "")];
    assert m.text != FAIL by {
      assert m.text[0] != FAIL[0];
    }
    CacheLosesExactly(feed, {}, [], out, 0);
  }

  /** Where the seed is complete for the chat, nothing readable is lost. */
  lemma CompleteSeedLosesNothing(feed: map<Id, Message>, deleted: set<Id>, chat: Chat, seed: seq<Message>,
          out: seq<Message>, i: nat)
    requires FeedOk(feed, deleted) && Unique(out) && IsRecent(feed, chat, seed) && |seed| < SEED_LIMIT
    requires i < |out| && out[i].id in feed && feed[out[i].id].chat == chat && !Bad(feed[out[i].id].text)
    ensures var t := CacheAfter(feed, deleted, seed, out); out[i].id in t && !Bad(t[out[i].id].text)
  {
    var id := out[i].id;
    assert feed[id] in seed;
    var j :| 0 <= j < |seed| && seed[j] == feed[id];
    LookUpUnique(seed, j);
    CacheLosesExactly(feed, deleted, seed, out, i);
  }

  lemma {:induction false} PutAllKeepsOk(feed: map<Id, Message>, deleted: set<Id>, nodes: seq<Message>)
    requires FeedOk(feed, deleted) && forall m :: m in nodes ==> m.text != FAIL
    ensures FeedOk(PutAll(feed, deleted, nodes), deleted)
    decreases |nodes|
  {
    if nodes != [] {
      PutAllKeepsOk(feed, deleted, nodes[..|nodes| - 1]);
    }
  }
}
