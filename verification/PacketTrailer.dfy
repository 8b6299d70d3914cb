/**
  The metadata trailer behind an encrypted video frame: optional timestamp and
  frame-id tags with every byte inverted, the inverted trailer length, and a
  four-letter mark. The reader works backwards from the end of the frame.
*/
module PacketTrailer {
  import opened Wrappers
  import opened Bytes

  const MARK: seq<byte> := [0x4C, 0x4B, 0x54, 0x53]

  datatype Metadata = Metadata(userTimestamp: nat, frameId: nat, userData: Option<seq<byte>>)
  datatype Parsed = Parsed(data: seq<byte>, metadata: Option<Metadata>)

  const NO_DATA := Metadata(0, 0, None)

  function Invert(s: seq<byte>): (t: seq<byte>)
    ensures |t| == |s| && forall k :: 0 <= k < |s| ==> t[k] == 255 - s[k]
  {
    seq(|s|, k requires 0 <= k < |s| => (255 - s[k]) as byte)
  }

  lemma InvertTwice(s: seq<byte>)
    ensures Invert(Invert(s)) == s
  {
  }

  // ------------------------------------------------------------- format

  function TimestampTag(t: nat): seq<byte> {
    if t == 0 then [] else [254, 247] + Invert(BigEndian(t, 8))
  }

  function FrameIdTag(n: nat): seq<byte> {
    if n == 0 then [] else [253, 251] + Invert(BigEndian(n, 4))
  }

  /** A frame with its trailer; with nothing to say the frame is left as it is. */
  function Trailed(e: seq<byte>, t: nat, n: nat): seq<byte> {
    if t == 0 && n == 0 then e
    else
      var tags := TimestampTag(t) + FrameIdTag(n);
      e + tags + [(255 - (|tags| + 5)) as byte] + MARK
  }

  /** The tags between `o` and `end`; `found` once one was understood. */
  function Tags(e: seq<byte>, o: nat, end: nat, m: Metadata, found: bool): Option<Metadata>
    requires o <= end <= |e|
    decreases end - o
  {
    if o + 2 > end then (if found then Some(m) else None)
    else
      var tag, n := 255 - e[o], 255 - e[o + 1];
      if o + 2 + n > end then (if found then Some(m) else None)
      else
        var body := Invert(e[o + 2..o + 2 + n]);
        if tag == 1 && n == 8 then Tags(e, o + 2 + n, end, m.(userTimestamp := FromBigEndian(body)), true)
        else if tag == 2 && n == 4 then Tags(e, o + 2 + n, end, m.(frameId := FromBigEndian(body)), true)
        else if tag == 3 then Tags(e, o + 2 + n, end, m.(userData := Some(body)), true)
        else Tags(e, o + 2 + n, end, m, found)
  }

  function Parse(e: seq<byte>): (r: Parsed)
    ensures r.metadata.None? ==> r.data == e
  {
    if |e| < 5 || e[|e| - 4..] != MARK then Parsed(e, None)
    else
      var n := 255 - e[|e| - 5];
      if n < 5 || n > |e| then Parsed(e, None)
      else
        var m := Tags(e, |e| - n, |e| - 5, NO_DATA, false);
        if m.Some? then Parsed(e[..|e| - n], m) else Parsed(e, None)
  }

  // -------------------------------------------------------- the printer

  /** `k` inverted big-endian bytes of `n` at `at`, highest shift first. */
  method PutInverted(o: array<byte>, at: nat, n: nat, k: nat)
    requires at + k <= o.Length
    modifies o
    ensures o[..] == old(o[..at]) + Invert(BigEndian(n, k)) + old(o[at + k..])
    decreases k
  {
    ghost var before := o[..];
    if k > 0 {
      PutInverted(o, at, n / 256, k - 1);
      o[at + k - 1] := 255 - n % 256;
      assert o[at..at + k] == Invert(BigEndian(n / 256, k - 1)) + [255 - n % 256];
      assert Invert(BigEndian(n, k)) == Invert(BigEndian(n / 256, k - 1)) + [255 - n % 256];
      assert o[..at] == before[..at] && o[at + k..] == before[at + k..];
      assert o[..] == o[..at] + o[at..at + k] + o[at + k..];
    } else {
      assert before == before[..at] + Invert(BigEndian(n, 0)) + before[at..];
    }
  }

  /** A tag byte, a length byte and the value, from cursor `s` on. */
  method PutTag(o: array<byte>, s: nat, tag: byte, n: nat, k: nat, ghost front: seq<byte>) returns (next: nat)
    requires s + 2 + k <= o.Length && k < 256 && o[..s] == front
    modifies o
    ensures next == s + 2 + k && o[..next] == front + ([tag, 255 - k] + Invert(BigEndian(n, k)))
  {
    o[s], o[s + 1] := tag, 255 - k;
    assert o[..s + 2] == front + [tag, 255 - k];
    PutInverted(o, s + 2, n, k);
    next := s + 2 + k;
    assert o[..next] == o[..][..next] == front + [tag, 255 - k] + Invert(BigEndian(n, k));
  }

  method PutEnd(o: array<byte>, s: nat, a: nat, ghost front: seq<byte>)
    requires s + 5 == o.Length && a < 256 && o[..s] == front
    modifies o
    ensures o[..] == front + [255 - a] + MARK
  {
    o[s] := 255 - a;
    o[s + 1], o[s + 2], o[s + 3], o[s + 4] := 0x4C, 0x4B, 0x54, 0x53;
    assert o[..] == o[..s] + [255 - a] + MARK;
  }

  method AppendTrailer(e: seq<byte>, t: nat, n: nat) returns (r: seq<byte>)
    ensures r == Trailed(e, t, n)
  {
    var hasTime, hasId := t != 0, n != 0;
    if !hasTime && !hasId {
      return e;
    }
    var a := (if hasTime then 10 else 0) + (if hasId then 6 else 0) + 5;
    var o := new byte[|e| + a](_ => 0);
    forall k | 0 <= k < |e| {
      o[k] := e[k];
    }
    var s := |e|;
    assert o[..s] == e;
    if hasTime {
      s := PutTag(o, s, 254, t, 8, e);
    }
    assert o[..s] == e + TimestampTag(t);
    if hasId {
      s := PutTag(o, s, 253, n, 4, e + TimestampTag(t));
    }
    assert o[..s] == e + TimestampTag(t) + FrameIdTag(n);
    PutEnd(o, s, a, e + TimestampTag(t) + FrameIdTag(n));
    WholeTrailer(e, t, n);
    r := o[..];
  }

  lemma WholeTrailer(e: seq<byte>, t: nat, n: nat)
    requires t != 0 || n != 0
    ensures var k := (if t != 0 then 10 else 0) + (if n != 0 then 6 else 0) + 5;
      Trailed(e, t, n) == e + TimestampTag(t) + FrameIdTag(n) + [255 - k] + MARK
  {
    var time, id := TimestampTag(t), FrameIdTag(n);
    assert e + (time + id) == e + time + id;
  }

  // --------------------------------------------------------- the parser

  method ReadInverted(e: seq<byte>, at: nat, k: nat) returns (n: nat)
    requires at + k <= |e|
    ensures n == FromBigEndian(Invert(e[at..at + k]))
  {
    n := 0;
    for i := 0 to k
      invariant n == FromBigEndian(Invert(e[at..at + i]))
    {
      var s := Invert(e[at..at + i + 1]);
      assert s[..i] == Invert(e[at..at + i]);
      n := n * 256 + (255 - e[at + i]);
    }
  }

  /** The tag at `o`, whose body lies before `end`; unknown tags are passed over. */
  method TakeTag(e: seq<byte>, o: nat, end: nat, m0: Metadata, found0: bool) returns (m: Metadata, found: bool)
    requires o + 2 <= end <= |e| && o + 2 + (255 - e[o + 1]) <= end
    ensures Tags(e, o, end, m0, found0) == Tags(e, o + 2 + (255 - e[o + 1]), end, m, found)
  {
    var tag, len := 255 - e[o], 255 - e[o + 1];
    m, found := m0, found0;
    if tag == 1 && len == 8 {
      var t := ReadTimestamp(e, o + 2);
      m, found := m.(userTimestamp := t), true;
    } else if tag == 2 && len == 4 {
      var id := ReadInverted(e, o + 2, len);
      m, found := m.(frameId := id), true;
    } else if tag == 3 {
      m, found := m.(userData := Some(Invert(e[o + 2..o + 2 + len]))), true;
    }
  }

  method ParseTrailer(e: seq<byte>) returns (r: Parsed)
    ensures r == Parse(e)
  {
    if |e| < 5 {
      return Parsed(e, None);
    }
    if e[|e| - 4..] != MARK {
      return Parsed(e, None);
    }
    var n := 255 - e[|e| - 5];
    if n < 5 || n > |e| {
      return Parsed(e, None);
    }
    var start, end := |e| - n, |e| - 5;
    var o, found, m := start, false, NO_DATA;
    while o + 2 <= end
      invariant start <= o <= end
      invariant Tags(e, start, end, NO_DATA, false) == Tags(e, o, end, m, found)
      decreases end - o
    {
      var len := 255 - e[o + 1];
      if o + 2 + len > end {
        break;
      }
      m, found := TakeTag(e, o, end, m, found);
      o := o + 2 + len;
    }
    if found {
      return Parsed(e[..start], Some(m));
    }
    return Parsed(e, None);
  }

  /** `Jt`: a timestamp read as two 32-bit halves. */
  method ReadTimestamp(e: seq<byte>, at: nat) returns (t: nat)
    requires at + 8 <= |e|
    ensures t == FromBigEndian(Invert(e[at..at + 8]))
  {
    var high := ReadInverted(e, at, 4);
    var low := ReadInverted(e, at + 4, 4);
    HighLow(Invert(e[at..at + 4]), Invert(e[at + 4..at + 8]));
    assert Invert(e[at..at + 8]) == Invert(e[at..at + 4]) + Invert(e[at + 4..at + 8]);
    t := high * TWO32 + low;
  }

  lemma FourMore(a: seq<byte>, b: seq<byte>)
    requires |b| == 4
    ensures FromBigEndian(a + b) == 256 * (256 * (256 * (256 * FromBigEndian(a) + b[0]) + b[1]) + b[2]) + b[3]
  {
    var x := a + [b[0]];
    var y := x + [b[1]];
    var z := y + [b[2]];
    assert a + b == z + [b[3]];
    FromBigEndianSnoc(a, b[0]);
    FromBigEndianSnoc(x, b[1]);
    FromBigEndianSnoc(y, b[2]);
    FromBigEndianSnoc(z, b[3]);
  }

  lemma HighLow(a: seq<byte>, b: seq<byte>)
    requires |b| == 4
    ensures FromBigEndian(a + b) == FromBigEndian(a) * TWO32 + FromBigEndian(b)
  {
    FourMore(a, b);
    FourMore([], b);
    assert [] + b == b;
  }

  // --------------------------------------------------------- round trip

  lemma TimestampRead(e: seq<byte>, o: nat, end: nat, t: nat, m: Metadata, found: bool)
    requires 0 < t < TWO32 * TWO32 && o + 10 <= end <= |e| && e[o..o + 10] == TimestampTag(t)
    ensures Tags(e, o, end, m, found) == Tags(e, o + 10, end, m.(userTimestamp := t), true)
  {
    var tag := TimestampTag(t);
    assert e[o] == tag[0] && e[o + 1] == tag[1];
    assert e[o + 2..o + 10] == tag[2..] == Invert(BigEndian(t, 8));
    InvertTwice(BigEndian(t, 8));
    Widths();
    BigEndianRoundTrip(t, 8);
  }

  lemma FrameIdRead(e: seq<byte>, o: nat, end: nat, n: nat, m: Metadata, found: bool)
    requires 0 < n < TWO32 && o + 6 <= end <= |e| && e[o..o + 6] == FrameIdTag(n)
    ensures Tags(e, o, end, m, found) == Tags(e, o + 6, end, m.(frameId := n), true)
  {
    var tag := FrameIdTag(n);
    assert e[o] == tag[0] && e[o + 1] == tag[1];
    assert e[o + 2..o + 6] == tag[2..] == Invert(BigEndian(n, 4));
    InvertTwice(BigEndian(n, 4));
    Widths();
    BigEndianRoundTrip(n, 4);
  }

  lemma Parts(p: seq<byte>, a: seq<byte>, b: seq<byte>, rest: seq<byte>)
    ensures var e, o, k := p + (a + b) + rest, |p|, |p| + |a|; var end := k + |b|;
      e[..o] == p && e[o..k] == a && e[k..end] == b && e[end..] == rest
  {
    var e, o, k := p + (a + b) + rest, |p|, |p| + |a|;
    assert e == p + a + b + rest;
  }

  lemma TrailedParts(p: seq<byte>, t: nat, n: nat)
    requires t != 0 || n != 0
    ensures var tags := TimestampTag(t) + FrameIdTag(n);
      Trailed(p, t, n) == p + tags + ([(255 - (|tags| + 5)) as byte] + MARK)
  {
  }

  /** The last five bytes give the length of the trailer, whose tags decide. */
  lemma ParseTagged(p: seq<byte>, tags: seq<byte>)
    requires |tags| <= 250
    ensures var e := p + tags + ([(255 - (|tags| + 5)) as byte] + MARK);
      var m := Tags(e, |p|, |p| + |tags|, NO_DATA, false);
      Parse(e) == if m.Some? then Parsed(p, m) else Parsed(e, None)
  {
    var rest := [(255 - (|tags| + 5)) as byte] + MARK;
    var e := p + tags + rest;
    Parts(p, tags, [], rest);
    assert tags + [] == tags;
    assert e[|e| - 5..] == rest;
    assert e[|e| - 4..] == rest[1..] == MARK && e[|e| - 5] == rest[0];
    assert |e| - (|tags| + 5) == |p|;
  }

  /** Whatever the payload ends in, the reader gives back the payload and the
      fields that were written. */
  lemma TrailerRoundTrip(p: seq<byte>, t: nat, n: nat)
    requires t < TWO32 * TWO32 && n < TWO32 && (t != 0 || n != 0)
    ensures Parse(Trailed(p, t, n)) == Parsed(p, Some(Metadata(t, n, None)))
  {
    var time, id := TimestampTag(t), FrameIdTag(n);
    var rest := [(255 - (|time + id| + 5)) as byte] + MARK;
    var e := p + (time + id) + rest;
    var o, end := |p|, |p| + |time + id|;
    Parts(p, time, id, rest);
    var m := NO_DATA;
    if t != 0 {
      TimestampRead(e, o, end, t, m, false);
    }
    if n != 0 {
      FrameIdRead(e, o + |time|, end, n, m.(userTimestamp := t), t != 0);
    }
    ParseTagged(p, time + id);
    TrailedParts(p, t, n);
  }

  // ------------------------------------------- any list of tags is understood

  datatype Tag = Tag(id: byte, body: seq<byte>)

  predicate Fit(tags: seq<Tag>) { forall t :: t in tags ==> |t.body| < 256 }

  /** Inverted throughout: id, length, body. */
  function Encoded(tags: seq<Tag>): seq<byte>
    requires Fit(tags)
  {
    if tags == [] then []
    else
      var t := tags[0];
      assert Fit(tags[1..]) by { assert forall x :: x in tags[1..] ==> x in tags; }
      Invert([t.id, |t.body| as byte]) + Invert(t.body) + Encoded(tags[1..])
  }

  /** The body of the last tag of this id, and of this length if one is demanded. */
  function Last(tags: seq<Tag>, id: byte, length: Option<nat>): Option<seq<byte>> {
    if tags == [] then None
    else
      var later, t := Last(tags[1..], id, length), tags[0];
      if later.Some? then later
      else if t.id == id && (length.None? || |t.body| == length.value) then Some(t.body)
      else None
  }

  function Number(body: Option<seq<byte>>, other: nat): nat {
    if body.Some? then FromBigEndian(body.value) else other
  }

  /** Timestamp, frame id and user data as the last tags of ids 1, 2 and 3 say. */
  function Meant(tags: seq<Tag>, m: Metadata): Metadata {
    Metadata(Number(Last(tags, 1, Some(8)), m.userTimestamp), Number(Last(tags, 2, Some(4)), m.frameId),
             if Last(tags, 3, None).Some? then Last(tags, 3, None) else m.userData)
  }

  predicate Known(tags: seq<Tag>) {
    Last(tags, 1, Some(8)).Some? || Last(tags, 2, Some(4)).Some? || Last(tags, 3, None).Some?
  }

  /** No further tag: too short for one, or cut off. */
  predicate Stops(rest: seq<byte>) { |rest| < 2 || 2 + (255 - rest[1]) > |rest| }

  lemma SubSlice(e: seq<byte>, o: nat, end: nat, i: nat, j: nat)
    requires o <= end <= |e| && i <= j <= end - o
    ensures e[o..end][i..j] == e[o + i..o + j]
  {
    var x := e[o..end];
    forall k | 0 <= k < j - i ensures x[i..j][k] == e[o + i..o + j][k] {
      assert x[i + k] == e[o + (i + k)];
    }
  }

  lemma Sliced(e: seq<byte>, o: nat, end: nat, head: seq<byte>, body: seq<byte>, more: seq<byte>)
    requires o <= end <= |e| && e[o..end] == head + body + more && |head| == 2
    ensures o + 2 + |body| <= end && e[o] == head[0] && e[o + 1] == head[1]
    ensures e[o + 2..o + 2 + |body|] == body && e[o + 2 + |body|..end] == more
  {
    var x := e[o..end];
    assert x[0] == head[0] && x[1] == head[1];
    SubSlice(e, o, end, 2, 2 + |body|);
    SubSlice(e, o, end, 2 + |body|, end - o);
    assert x[2..2 + |body|] == body && x[2 + |body|..end - o] == more;
  }

  lemma EncodedFirst(tags: seq<Tag>)
    requires Fit(tags) && tags != []
    ensures |tags[0].body| < 256 && Fit(tags[1..])
    ensures Encoded(tags) == Invert([tags[0].id, |tags[0].body| as byte]) + Invert(tags[0].body) + Encoded(tags[1..])
  {
    assert tags[0] in tags;
    assert forall x :: x in tags[1..] ==> x in tags;
  }

  lemma FirstTag(e: seq<byte>, o: nat, end: nat, tags: seq<Tag>, rest: seq<byte>)
    requires Fit(tags) && tags != [] && o <= end <= |e| && e[o..end] == Encoded(tags) + rest
    ensures Fit(tags[1..]) && var n := |tags[0].body|;
      && o + 2 + n <= end && e[o] == 255 - tags[0].id && e[o + 1] == 255 - n
      && Invert(e[o + 2..o + 2 + n]) == tags[0].body && e[o + 2 + n..end] == Encoded(tags[1..]) + rest
  {
    EncodedFirst(tags);
    var t := tags[0];
    var head, body := Invert([t.id, |t.body| as byte]), Invert(t.body);
    assert e[o..end] == head + body + (Encoded(tags[1..]) + rest);
    Sliced(e, o, end, head, body, Encoded(tags[1..]) + rest);
    InvertTwice(t.body);
  }

  lemma {:induction false} TagsRead(e: seq<byte>, o: nat, end: nat, tags: seq<Tag>, rest: seq<byte>, m: Metadata,
          found: bool)
    requires Fit(tags) && o <= end <= |e| && e[o..end] == Encoded(tags) + rest && Stops(rest)
    ensures Tags(e, o, end, m, found) == if found || Known(tags) then Some(Meant(tags, m)) else None
    decreases |tags|
  {
    if tags == [] {
      assert e[o..end] == rest;
      assert |rest| >= 2 ==> e[o + 1] == rest[1];
    } else {
      FirstTag(e, o, end, tags, rest);
      var t, next := tags[0], o + 2 + |tags[0].body|;
      if t.id == 1 && |t.body| == 8 {
        TagsRead(e, next, end, tags[1..], rest, m.(userTimestamp := FromBigEndian(t.body)), true);
      } else if t.id == 2 && |t.body| == 4 {
        TagsRead(e, next, end, tags[1..], rest, m.(frameId := FromBigEndian(t.body)), true);
      } else if t.id == 3 {
        TagsRead(e, next, end, tags[1..], rest, m.(userData := Some(t.body)), true);
      } else {
        TagsRead(e, next, end, tags[1..], rest, m, found);
      }
    }
  }

  lemma TagsBetween(p: seq<byte>, a: seq<byte>, mark: seq<byte>, tags: seq<Tag>, rest: seq<byte>)
    requires Fit(tags) && Stops(rest) && a == Encoded(tags) + rest
    ensures Tags(p + a + mark, |p|, |p| + |a|, NO_DATA, false) ==
      if Known(tags) then Some(Meant(tags, NO_DATA)) else None
  {
    assert (p + a + mark)[|p|..|p| + |a|] == a;
    TagsRead(p + a + mark, |p|, |p| + |a|, tags, rest, NO_DATA, false);
  }

  /** For any list of tags, in any order, with unknown and repeated ones among them and
      a cut-off one at the end: the reader takes what the last tag of each known kind
      says and strips the trailer; if no tag is known the frame stays whole. */
  lemma AnyTagsRead(p: seq<byte>, a: seq<byte>, tags: seq<Tag>, rest: seq<byte>)
    requires Fit(tags) && Stops(rest) && a == Encoded(tags) + rest && |a| <= 250
    ensures var e := p + a + ([(255 - (|a| + 5)) as byte] + MARK);
      Parse(e) == if Known(tags) then Parsed(p, Some(Meant(tags, NO_DATA))) else Parsed(e, None)
  {
    ParseTagged(p, a);
    TagsBetween(p, a, [(255 - (|a| + 5)) as byte] + MARK, tags, rest);
  }
}
