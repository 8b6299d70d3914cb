/**
  The `.env` editor and its two readers: one takes the first line that begins with
  the key, the other goes through all lines and lets the last one win.
*/
module EnvFile {
  import opened Wrappers

  /** What `trim` removes. */
  predicate Space(c: char) {
    var n := c as int;
    n == 0x20 || 0x09 <= n <= 0x0D || n == 0xA0 || n == 0x1680 || 0x2000 <= n <= 0x200A || n == 0x2028 || n == 0x2029 ||
    n == 0x202F || n == 0x205F || n == 0x3000 || n == 0xFEFF
  }

  /** What `^`, `$` and `.` of a multi-line pattern take for the end of a line. */
  predicate Terminator(c: char) { c == '\n' || c == '\r' || c as int == 0x2028 || c as int == 0x2029 }

  /** How many characters at the front, and at the end, are space. */
  function Lead(s: string): (n: nat)
    ensures n <= |s|
  {
    if s != "" && Space(s[0]) then Lead(s[1..]) + 1 else 0
  }

  function Trail(s: string): (n: nat)
    ensures n <= |s|
  {
    if s != "" && Space(s[|s| - 1]) then Trail(s[..|s| - 1]) + 1 else 0
  }

  function TrimStart(s: string): string { s[Lead(s)..] }

  function TrimEnd(s: string): string { s[..|s| - Trail(s)] }

  function Trim(s: string): string { TrimEnd(TrimStart(s)) }

  function IndexOf(s: string, c: char): (k: Option<nat>)
    ensures k.None? <==> c !in s
    ensures k.Some? ==> k.value < |s| && s[k.value] == c && c !in s[..k.value]
  {
    if s == "" then None
    else if s[0] == c then Some(0)
    else
      var k := IndexOf(s[1..], c);
      if k.Some? then Some(k.value + 1) else None
  }

  // ------------------------------------------------------- lines of a file

  /** `split` at every character of a kind. */
  function Split(s: string, p: char -> bool): (t: seq<string>)
    ensures t != []
  {
    if s == "" then [""]
    else if p(s[0]) then [""] + Split(s[1..], p)
    else
      var t := Split(s[1..], p);
      [[s[0]] + t[0]] + t[1..]
  }

  function AtLf(): char -> bool { c => c == '\n' }

  function AtTerminator(): char -> bool { c => Terminator(c) }

  /** `split(/\r?\n/)`. */
  function SplitCrLf(s: string): (t: seq<string>)
    ensures t != []
  {
    if s == "" then [""]
    else if s[0] == '\r' && |s| > 1 && s[1] == '\n' then [""] + SplitCrLf(s[2..])
    else if s[0] == '\n' then [""] + SplitCrLf(s[1..])
    else
      var t := SplitCrLf(s[1..]);
      [[s[0]] + t[0]] + t[1..]
  }

  function Join(lines: seq<string>): string
    requires lines != []
  {
    if |lines| == 1 then lines[0] else lines[0] + "\n" + Join(lines[1..])
  }

  /** Every CR belongs to a CR LF, and there is no exotic line end. */
  predicate Plain(s: string) { forall i :: 0 <= i < |s| && Terminator(s[i]) ==> PlainEnd(s, i) }

  predicate PlainEnd(s: string, i: nat)
    requires i < |s|
  {
    s[i] == '\n' || (s[i] == '\r' && i + 1 < |s| && s[i + 1] == '\n')
  }

  predicate OneLine(s: string) { forall i :: 0 <= i < |s| ==> !Terminator(s[i]) }

  predicate Name(c: char) { 'a' <= c <= 'z' || 'A' <= c <= 'Z' || '0' <= c <= '9' || c == '_' }

  /** The keys the script passes: names, which a pattern takes literally. */
  predicate ValidKey(k: string) { k != "" && forall i :: 0 <= i < |k| ==> Name(k[i]) }

  // ----------------------------------------------------------- the editor

  /** The key of a line to the editor. */
  function EditKey(line: string): Option<string> {
    var t := Trim(line);
    if (t != "" && t[0] == '#') || '=' !in t then None
    else
      var i := IndexOf(line, '=');
      if i.None? then None else Some(Trim(line[..i.value]))
  }

  function Assignment(k: string, v: string): string { k + "=" + v }

  function EditLine(line: string, k: string, v: string): string {
    if EditKey(line) == Some(k) then Assignment(k, v) else line
  }

  function Edited(lines: seq<string>, k: string, v: string): (t: seq<string>)
    ensures |t| == |lines| && forall i :: 0 <= i < |t| ==> t[i] == EditLine(lines[i], k, v)
  {
    seq(|lines|, i requires 0 <= i < |lines| => EditLine(lines[i], k, v))
  }

  predicate Hit(lines: seq<string>, k: string) { exists i :: 0 <= i < |lines| && EditKey(lines[i]) == Some(k) }

  function EditLines(lines: seq<string>, k: string, v: string): seq<string> {
    Edited(lines, k, v) + (if Hit(lines, k) then [] else [Assignment(k, v)])
  }

  function Upsert(content: string, k: string, v: string): string {
    Join(EditLines(SplitCrLf(content), k, v))
  }

  method UpsertKey(content: string, key: string, value: string) returns (r: string)
    ensures r == Upsert(content, key, value)
  {
    var lines := SplitCrLf(content);
    var hit := false;
    var out := [];
    for n := 0 to |lines|
      invariant out == Edited(lines[..n], key, value) && hit == Hit(lines[..n], key)
    {
      var line := lines[n];
      ghost var before := lines[..n];
      assert lines[..n + 1] == before + [line];
      HitSnoc(before, line, key);
      EditedSnoc(before, line, key, value);
      var mine := false;
      var t := Trim(line);
      if !((t != "" && t[0] == '#') || '=' !in t) {
        var i := IndexOf(line, '=');
        if i.Some? {
          mine := Trim(line[..i.value]) == key;
        }
      }
      if mine {
        hit := true;
        out := out + [Assignment(key, value)];
      } else {
        out := out + [line];
      }
    }
    assert lines[..|lines|] == lines;
    if !hit {
      out := out + [Assignment(key, value)];
    }
    assert out == EditLines(lines, key, value);
    return Join(out);
  }

  lemma EditedSnoc(lines: seq<string>, line: string, k: string, v: string)
    ensures Edited(lines + [line], k, v) ==
      Edited(lines, k, v) + [if EditKey(line) == Some(k) then Assignment(k, v) else line]
  {
  }

  lemma HitSnoc(lines: seq<string>, line: string, k: string)
    ensures Hit(lines + [line], k) <==> Hit(lines, k) || EditKey(line) == Some(k)
  {
    var t := lines + [line];
    if Hit(lines, k) {
      var i :| 0 <= i < |lines| && EditKey(lines[i]) == Some(k);
      assert EditKey(t[i]) == Some(k);
    }
    if EditKey(line) == Some(k) {
      assert EditKey(t[|lines|]) == Some(k);
    }
  }

  // ---------------------------------------------------------- the readers

  predicate Begins(line: string, k: string) { |k| < |line| && line[..|k|] == k && line[|k|] == '=' }

  /** The first line that begins with the key: the rest of it. */
  function First(lines: seq<string>, k: string): Option<string> {
    if lines == [] then None
    else if Begins(lines[0], k) then Some(lines[0][|k| + 1..])
    else First(lines[1..], k)
  }

  /** `getKey`. */
  function GetKey(content: string, k: string): string {
    var m := First(Split(content, AtTerminator()), k);
    if m.Some? then Trim(m.value) else ""
  }

  datatype Pair = Pair(key: string, value: string)

  /** What a line says to `parseEnvFile`. */
  function Says(line: string): Option<Pair> {
    var t := Trim(line);
    if t == "" || t[0] == '#' then None
    else
      var i := IndexOf(t, '=');
      if i.None? then None else Some(Pair(Trim(t[..i.value]), Trim(t[i.value + 1..])))
  }

  function ParseLines(lines: seq<string>): map<string, string> {
    if lines == [] then map[]
    else
      Noted(ParseLines(lines[..|lines| - 1]), Says(lines[|lines| - 1]))
  }

  function Parse(raw: string): map<string, string> { ParseLines(Split(raw, AtLf())) }

  lemma ParseSnoc(lines: seq<string>, n: nat)
    requires n < |lines|
    ensures ParseLines(lines[..n + 1]) == Noted(ParseLines(lines[..n]), Says(lines[n]))
  {
    assert lines[..n + 1][..n] == lines[..n];
  }

  function Noted(out: map<string, string>, p: Option<Pair>): map<string, string> {
    if p.Some? then out[p.value.key := p.value.value] else out
  }

  method ParseEnvFile(raw: string) returns (out: map<string, string>)
    ensures out == Parse(raw)
  {
    out := map[];
    var lines := Split(raw, AtLf());
    for n := 0 to |lines|
      invariant out == ParseLines(lines[..n])
    {
      ParseSnoc(lines, n);
      var t := Trim(lines[n]);
      if t == "" || t[0] == '#' {
        assert Says(lines[n]).None?;
        continue;
      }
      var i := IndexOf(t, '=');
      if i.None? {
        assert Says(lines[n]).None?;
        continue;
      }
      assert Says(lines[n]) == Some(Pair(Trim(t[..i.value]), Trim(t[i.value + 1..])));
      out := Noted(out, Some(Pair(Trim(t[..i.value]), Trim(t[i.value + 1..]))));
    }
    assert lines[..|lines|] == lines;
  }

  // -------------------------------------------- the editor's key is the reader's

  lemma {:induction false} LeadIs(s: string, n: nat)
    requires n <= |s| && (forall k :: 0 <= k < n ==> Space(s[k])) && (n < |s| ==> !Space(s[n]))
    ensures Lead(s) == n
    decreases n
  {
    if n > 0 {
      LeadIs(s[1..], n - 1);
    }
  }

  lemma {:induction false} TrailIs(s: string, n: nat)
    requires n <= |s| && (forall k :: |s| - n <= k < |s| ==> Space(s[k])) && (n < |s| ==> !Space(s[|s| - n - 1]))
    ensures Trail(s) == n
    decreases n
  {
    if n > 0 {
      TrailIs(s[..|s| - 1], n - 1);
    }
  }

  /** Between `a` and `b` lies what trimming leaves. */
  predicate Core(s: string, a: nat, b: nat) {
    a < b <= |s| && !Space(s[a]) && !Space(s[b - 1]) &&
    (forall k :: 0 <= k < a ==> Space(s[k])) && (forall k :: b <= k < |s| ==> Space(s[k]))
  }

  predicate Blank(s: string) { forall k :: 0 <= k < |s| ==> Space(s[k]) }

  lemma TrimCore(s: string, a: nat, b: nat)
    requires Core(s, a, b)
    ensures Trim(s) == s[a..b]
  {
    LeadIs(s, a);
    var t := s[a..];
    TrailIs(t, |s| - b);
    assert t[..|t| - (|s| - b)] == s[a..b];
  }

  lemma TrimBlank(s: string)
    requires Blank(s)
    ensures Trim(s) == ""
  {
    LeadIs(s, |s|);
  }

  /** Every string is blank or has a core. */
  lemma {:induction false} HasCore(s: string) returns (a: nat, b: nat)
    ensures Blank(s) || Core(s, a, b)
    decreases |s|
  {
    a, b := 0, |s|;
    if s != "" {
      if Space(s[0]) {
        a, b := HasCore(s[1..]);
        a, b := a + 1, b + 1;
        assert Blank(s[1..]) ==> Blank(s) by {
          assert s == [s[0]] + s[1..];
        }
        if !Blank(s) {
          CoreFront(s, a - 1, b - 1);
        }
      } else if Space(s[|s| - 1]) {
        a, b := HasCore(s[..|s| - 1]);
        assert !Space(s[..|s| - 1][0]);
      }
    }
  }

  lemma CoreFront(s: string, a: nat, b: nat)
    requires s != "" && Space(s[0]) && Core(s[1..], a, b)
    ensures Core(s, a + 1, b + 1)
  {
    var t := s[1..];
    forall k | 0 <= k < a + 1 ensures Space(s[k]) {
      if k > 0 {
        assert Space(t[k - 1]);
      }
    }
    forall k | b + 1 <= k < |s| ensures Space(s[k]) {
      assert Space(t[k - 1]);
    }
  }

  lemma {:induction false} IndexIs(s: string, c: char, i: nat)
    requires i < |s| && s[i] == c && c !in s[..i]
    ensures IndexOf(s, c) == Some(i)
    decreases i
  {
    if i > 0 {
      assert s[..i][0] == s[0] && s[1..][..i - 1] == s[..i][1..];
      IndexIs(s[1..], c, i - 1);
    }
  }

  lemma NoIndex(s: string, c: char, a: nat, b: nat)
    requires a <= b <= |s| && c !in s
    ensures c !in s[a..b]
  {
  }

  /** Spaces in front make no difference to what is trimmed. */
  lemma TrimDropsSpaces(s: string, a: nat)
    requires a <= |s| && forall k :: 0 <= k < a ==> Space(s[k])
    ensures Trim(s[a..]) == Trim(s)
  {
    var x, y := HasCore(s);
    if Blank(s) {
      TrimBlank(s);
      TrimBlank(s[a..]);
    } else {
      assert a <= x;
      TrimCore(s, x, y);
      CoreCut(s, a, x, y);
      TrimCore(s[a..], x - a, y - a);
      SubSlice(s, a, x, y);
    }
  }

  lemma SubSlice(s: string, a: nat, x: nat, y: nat)
    requires a <= x <= y <= |s|
    ensures s[a..][x - a..y - a] == s[x..y]
  {
  }

  lemma CoreCut(s: string, a: nat, x: nat, y: nat)
    requires Core(s, x, y) && a <= x
    ensures Core(s[a..], x - a, y - a)
  {
    var t := s[a..];
    forall k | 0 <= k < |t| ensures t[k] == s[a + k] {
    }
    forall k | y - a <= k < |t| ensures Space(t[k]) {
      assert Space(s[a + k]);
    }
  }

  /** The first `=` of a line lies in its core, and the key before it is the same. */
  lemma KeyInCore(line: string, a: nat, b: nat)
    requires Core(line, a, b) && '=' in line
    ensures var t := line[a..b]; var i, j := IndexOf(line, '='), IndexOf(t, '=');
      '=' in t && i.Some? && j.Some? && Trim(t[..j.value]) == Trim(line[..i.value])
  {
    var t := line[a..b];
    var i := IndexOf(line, '=').value;
    assert a <= i < b;
    assert t[i - a] == '=';
    assert t[..i - a] == line[..i][a..];
    IndexIs(t, '=', i - a);
    TrimDropsSpaces(line[..i], a);
  }

  /** Editor and reader see the same key in every line. */
  lemma KeysAgree(line: string)
    ensures EditKey(line) == if Says(line).Some? then Some(Says(line).value.key) else None
  {
    var a, b := HasCore(line);
    if Blank(line) {
      TrimBlank(line);
    } else {
      TrimCore(line, a, b);
      if '=' in line {
        KeyInCore(line, a, b);
      } else {
        NoIndex(line, '=', a, b);
      }
    }
  }

  /** Spaces at the end make no difference either. */
  lemma SameTrim(s: string, t: string)
    requires |s| <= |t| && t[..|s|] == s && forall k :: |s| <= k < |t| ==> Space(t[k])
    ensures Trim(t) == Trim(s)
  {
    assert forall k :: 0 <= k < |s| ==> t[k] == t[..|s|][k];
    var a, b := HasCore(s);
    if Blank(s) {
      TrimBlank(s);
      TrimBlank(t);
    } else {
      TrimCore(s, a, b);
      TrimCore(t, a, b);
      assert t[a..b] == t[..|s|][a..b];
    }
  }

  lemma NamesTrim(k: string)
    requires ValidKey(k)
    ensures Trim(k) == k && '=' !in k && '#' !in k
  {
    TrimCore(k, 0, |k|);
  }

  /** Up to the end of its core, an assignment is its key, `=` and the start of the value. */
  lemma AssignmentCore(k: string, v: string) returns (m: nat)
    requires ValidKey(k)
    ensures |k| < m <= |k| + 1 + |v| && Core(Assignment(k, v), 0, m)
    ensures forall j :: m - |k| - 1 <= j < |v| ==> Space(v[j])
  {
    var line := Assignment(k, v);
    var a, b := HasCore(line);
    assert line[0] == k[0] && line[|k|] == '=';
    assert !Space(line[0]) && !Space(line[|k|]);
    m := b;
    forall j | m - |k| - 1 <= j < |v| ensures Space(v[j]) {
      assert line[j + |k| + 1] == v[j];
    }
  }

  /** What an assignment says: its key, and its value trimmed. */
  lemma AssignmentSays(k: string, v: string)
    requires ValidKey(k)
    ensures Says(Assignment(k, v)) == Some(Pair(k, Trim(v)))
  {
    var line := Assignment(k, v);
    var m := AssignmentCore(k, v);
    NamesTrim(k);
    TrimCore(line, 0, m);
    var t, w := line[..m], v[..m - |k| - 1];
    assert t == k + "=" + w;
    assert t[..|k|] == k && t[|k| + 1..] == w;
    IndexIs(t, '=', |k|);
    SameTrim(w, v);
  }

  /** A line that begins with the key has that key. */
  lemma BeginsHasKey(line: string, k: string)
    requires ValidKey(k) && Begins(line, k)
    ensures EditKey(line) == Some(k)
  {
    NamesTrim(k);
    IndexIs(line, '=', |k|);
    var a, b := HasCore(line);
    assert line[0] == line[..|k|][0] == k[0];
    assert !Space(line[0]) && !Space(line[|k|]);
    TrimCore(line, 0, b);
    assert line[0..b][|k|] == '=';
  }

  lemma AssignmentBegins(k: string, v: string, j: string)
    requires ValidKey(k) && ValidKey(j)
    ensures Begins(Assignment(k, v), j) <==> j == k
    ensures Assignment(k, v)[|k| + 1..] == v
  {
    var line := Assignment(k, v);
    NamesTrim(k);
    NamesTrim(j);
    assert line[..|k|] == k && line[|k|] == '=';
    IndexIs(line, '=', |k|);
    if Begins(line, j) {
      IndexIs(line, '=', |j|);
    }
  }

  // ------------------------------------------------- splitting and joining

  /** A character kind that ends lines: LF at least, and line ends only. */
  ghost predicate Ends(p: char -> bool) { p('\n') && forall c :: p(c) ==> Terminator(c) }

  lemma {:induction false} SplitFirst(l: string, e: char, rest: string, p: char -> bool)
    requires OneLine(l) && p(e) && forall c :: p(c) ==> Terminator(c)
    ensures Split(l + [e] + rest, p) == [l] + Split(rest, p)
    decreases |l|
  {
    var s := l + [e] + rest;
    if l == "" {
      assert s[0] == e && s[1..] == rest;
    } else {
      SplitFirst(l[1..], e, rest, p);
      assert s[1..] == l[1..] + [e] + rest && s[0] == l[0];
      assert [l[0]] + l[1..] == l;
      var t := [l[1..]] + Split(rest, p);
      assert t[1..] == Split(rest, p);
    }
  }

  lemma {:induction false} SplitOne(l: string, p: char -> bool)
    requires OneLine(l) && forall c :: p(c) ==> Terminator(c)
    ensures Split(l, p) == [l]
    decreases |l|
  {
    if l != "" {
      SplitOne(l[1..], p);
      assert [l[0]] + l[1..] == l;
    }
  }

  ghost predicate AllOneLine(lines: seq<string>) { forall i :: 0 <= i < |lines| ==> OneLine(lines[i]) }

  lemma {:induction false} SplitJoin(lines: seq<string>, p: char -> bool)
    requires lines != [] && AllOneLine(lines) && Ends(p)
    ensures Split(Join(lines), p) == lines
    decreases |lines|
  {
    if |lines| == 1 {
      SplitOne(lines[0], p);
    } else {
      SplitJoin(lines[1..], p);
      SplitFirst(lines[0], '\n', Join(lines[1..]), p);
    }
  }

  lemma {:induction false} SplitCrLfFirst(l: string, rest: string)
    requires OneLine(l)
    ensures SplitCrLf(l + "\n" + rest) == [l] + SplitCrLf(rest) && SplitCrLf(l) == [l]
    decreases |l|
  {
    var s := l + "\n" + rest;
    if l == "" {
      assert s[1..] == rest;
    } else {
      SplitCrLfFirst(l[1..], rest);
      assert s[1..] == l[1..] + "\n" + rest && s[0] == l[0];
      assert [l[0]] + l[1..] == l;
      var t := [l[1..]] + SplitCrLf(rest);
      assert t[1..] == SplitCrLf(rest);
    }
  }

  lemma {:induction false} SplitCrLfJoin(lines: seq<string>)
    requires lines != [] && AllOneLine(lines)
    ensures SplitCrLf(Join(lines)) == lines
    decreases |lines|
  {
    if |lines| == 1 {
      SplitCrLfFirst(lines[0], "");
    } else {
      SplitCrLfJoin(lines[1..]);
      SplitCrLfFirst(lines[0], Join(lines[1..]));
    }
  }

  /** The lines of a plain file have no line ends in them. */
  lemma {:induction false} PlainLines(s: string)
    requires Plain(s)
    ensures AllOneLine(SplitCrLf(s))
    decreases |s|
  {
    if s == "" {
    } else if s[0] == '\r' && |s| > 1 && s[1] == '\n' {
      PlainTail(s, 2);
      PlainLines(s[2..]);
    } else {
      PlainTail(s, 1);
      PlainLines(s[1..]);
      var t := SplitCrLf(s[1..]);
      assert OneLine(t[0]);
    }
  }

  lemma PlainTail(s: string, n: nat)
    requires Plain(s) && n <= |s|
    ensures Plain(s[n..])
  {
    var t := s[n..];
    forall i | 0 <= i < |t| && Terminator(t[i]) ensures PlainEnd(t, i) {
      assert PlainEnd(s, n + i);
    }
  }

  lemma LfBehindCr(s: string)
    requires |s| > 1 && s[0] == '\r' && s[1] == '\n'
    ensures Split(s, AtLf()) == ["\r"] + Split(s[2..], AtLf())
  {
    assert s[1..][1..] == s[2..];
    var t := [""] + Split(s[2..], AtLf());
    assert Split(s[1..], AtLf()) == t && t[1..] == Split(s[2..], AtLf());
    assert [s[0]] + t[0] == "\r";
  }

  predicate CrMore(x: string, y: string) { x == y || x == y + "\r" }

  ghost predicate CrMoreEach(x: seq<string>, y: seq<string>) {
    |x| == |y| && forall i :: 0 <= i < |x| ==> CrMore(x[i], y[i])
  }

  lemma CrMoreCons(a: string, b: string, x: seq<string>, y: seq<string>)
    requires CrMore(a, b) && CrMoreEach(x, y)
    ensures CrMoreEach([a] + x, [b] + y)
  {
  }

  lemma CrMoreHead(c: char, x: seq<string>, y: seq<string>)
    requires CrMoreEach(x, y) && x != []
    ensures CrMoreEach([[c] + x[0]] + x[1..], [[c] + y[0]] + y[1..])
  {
    assert CrMore(x[0], y[0]);
    assert [c] + (y[0] + "\r") == [c] + y[0] + "\r";
    assert CrMore([c] + x[0], [c] + y[0]);
    CrMoreCons([c] + x[0], [c] + y[0], x[1..], y[1..]);
  }

  /** The reader that splits at LF only sees at most a CR more in each line. */
  lemma {:induction false} LfLines(s: string)
    ensures CrMoreEach(Split(s, AtLf()), SplitCrLf(s))
    decreases |s|
  {
    if s == "" {
    } else if s[0] == '\r' && |s| > 1 && s[1] == '\n' {
      LfLines(s[2..]);
      LfBehindCr(s);
      CrMoreCons("\r", "", Split(s[2..], AtLf()), SplitCrLf(s[2..]));
    } else {
      LfLines(s[1..]);
      if s[0] == '\n' {
        CrMoreCons("", "", Split(s[1..], AtLf()), SplitCrLf(s[1..]));
      } else {
        CrMoreHead(s[0], Split(s[1..], AtLf()), SplitCrLf(s[1..]));
      }
    }
  }

  lemma {:induction false} ParseAlike(x: seq<string>, y: seq<string>)
    requires |x| == |y| && forall i :: 0 <= i < |x| ==> Says(x[i]) == Says(y[i])
    ensures ParseLines(x) == ParseLines(y)
    decreases |x|
  {
    if x != [] {
      ParseAlike(x[..|x| - 1], y[..|y| - 1]);
    }
  }

  lemma ParseSees(s: string)
    ensures Parse(s) == ParseLines(SplitCrLf(s))
  {
    var x, y := Split(s, AtLf()), SplitCrLf(s);
    LfLines(s);
    forall i | 0 <= i < |x| ensures Says(x[i]) == Says(y[i]) {
      assert CrMore(x[i], y[i]);
      if x[i] != y[i] {
        SameTrim(y[i], y[i] + "\r");
      }
    }
    ParseAlike(x, y);
  }

  /** The reader that stops at every line end finds the same first line. */
  lemma {:induction false} FirstSees(s: string, k: string)
    requires Plain(s)
    ensures var x, y := Split(s, AtTerminator()), SplitCrLf(s); x[0] == y[0] && First(x[1..], k) == First(y[1..], k)
    decreases |s|
  {
    if s == "" {
    } else if s[0] == '\r' && |s| > 1 && s[1] == '\n' {
      PlainTail(s, 2);
      FirstSees(s[2..], k);
      var x, y := Split(s[2..], AtTerminator()), SplitCrLf(s[2..]);
      assert s[1..][1..] == s[2..];
      assert Split(s[1..], AtTerminator()) == [""] + x;
      assert ([""] + x)[1..] == x && ([""] + ([""] + x))[1..] == [""] + x && ([""] + y)[1..] == y;
    } else {
      PlainTail(s, 1);
      FirstSees(s[1..], k);
      var x, y := Split(s[1..], AtTerminator()), SplitCrLf(s[1..]);
      assert ([""] + x)[1..] == x && ([""] + y)[1..] == y;
    }
  }

  lemma GetKeySees(s: string, k: string)
    requires Plain(s)
    ensures GetKey(s, k) == var m := First(SplitCrLf(s), k); if m.Some? then Trim(m.value) else ""
  {
    FirstSees(s, k);
  }

  // --------------------------------------------------- the laws of editing

  lemma HitTail(lines: seq<string>, k: string)
    requires lines != []
    ensures Hit(lines, k) <==> EditKey(lines[0]) == Some(k) || Hit(lines[1..], k)
  {
    if Hit(lines, k) && EditKey(lines[0]) != Some(k) {
      var i :| 0 <= i < |lines| && EditKey(lines[i]) == Some(k);
      assert lines[1..][i - 1] == lines[i];
    }
    if Hit(lines[1..], k) {
      var i :| 0 <= i < |lines[1..]| && EditKey(lines[1..][i]) == Some(k);
      assert lines[i + 1] == lines[1..][i];
    }
  }

  lemma EditedTail(lines: seq<string>, k: string, v: string)
    requires lines != []
    ensures Edited(lines, k, v)[1..] == Edited(lines[1..], k, v)
  {
    var e, rest := Edited(lines, k, v), Edited(lines[1..], k, v);
    assert e[1..] == rest;
  }

  lemma EditedHead(lines: seq<string>, k: string, v: string)
    requires lines != []
    ensures Edited(lines, k, v) ==
      [if EditKey(lines[0]) == Some(k) then Assignment(k, v) else lines[0]] + Edited(lines[1..], k, v)
  {
    EditedTail(lines, k, v);
    var e := Edited(lines, k, v);
    assert e == [e[0]] + e[1..];
  }

  lemma FirstCons(line: string, rest: seq<string>, j: string)
    ensures First([line] + rest, j) == if Begins(line, j) then Some(line[|j| + 1..]) else First(rest, j)
  {
    assert ([line] + rest)[1..] == rest;
  }

  lemma {:induction false} FirstEdited(lines: seq<string>, k: string, v: string, j: string)
    requires ValidKey(k) && ValidKey(j)
    ensures First(Edited(lines, k, v), j) ==
      if j != k then First(lines, j) else if Hit(lines, k) then Some(v) else None
    decreases |lines|
  {
    if lines != [] {
      FirstEdited(lines[1..], k, v, j);
      HitTail(lines, k);
      EditedHead(lines, k, v);
      if EditKey(lines[0]) == Some(k) {
        AssignmentBegins(k, v, j);
        FirstCons(Assignment(k, v), Edited(lines[1..], k, v), j);
      } else {
        FirstCons(lines[0], Edited(lines[1..], k, v), j);
      }
      if Begins(lines[0], j) {
        BeginsHasKey(lines[0], j);
      }
    }
  }

  lemma {:induction false} FirstSnoc(lines: seq<string>, line: string, j: string)
    ensures First(lines + [line], j) ==
      if First(lines, j).Some? then First(lines, j) else if Begins(line, j) then Some(line[|j| + 1..]) else None
    decreases |lines|
  {
    if lines == [] {
      assert [] + [line] == [line];
    } else {
      FirstSnoc(lines[1..], line, j);
      assert (lines + [line])[1..] == lines[1..] + [line];
    }
  }

  lemma FirstAfterEdit(lines: seq<string>, k: string, v: string, j: string)
    requires ValidKey(k) && ValidKey(j)
    ensures First(EditLines(lines, k, v), j) == if j == k then Some(v) else First(lines, j)
  {
    FirstEdited(lines, k, v, j);
    FirstSnoc(Edited(lines, k, v), Assignment(k, v), j);
    AssignmentBegins(k, v, j);
    assert Edited(lines, k, v) + [] == Edited(lines, k, v);
  }

  lemma ParseAppend(lines: seq<string>, line: string)
    ensures ParseLines(lines + [line]) == Noted(ParseLines(lines), Says(line))
  {
    assert (lines + [line])[..|lines|] == lines;
  }

  lemma OtherNote(out: map<string, string>, p: Option<Pair>, k: string, w: string)
    requires p.Some? ==> p.value.key != k
    ensures Noted(out[k := w], p) == Noted(out, p)[k := w]
  {
  }

  lemma OwnNote(out: map<string, string>, p: Option<Pair>, k: string, w: string)
    requires p.Some? && p.value.key == k
    ensures out[k := w] == Noted(out, p)[k := w] && out[k := w][k := w] == out[k := w]
  {
  }

  lemma {:induction false} ParseEdited(lines: seq<string>, k: string, v: string)
    requires ValidKey(k)
    ensures ParseLines(Edited(lines, k, v)) ==
      if Hit(lines, k) then ParseLines(lines)[k := Trim(v)] else ParseLines(lines)
    decreases |lines|
  {
    if lines != [] {
      var front, line := lines[..|lines| - 1], lines[|lines| - 1];
      assert lines == front + [line];
      ParseEdited(front, k, v);
      ParseEditedSnoc(front, line, k, v);
    }
  }

  lemma ParseEditedSnoc(front: seq<string>, line: string, k: string, v: string)
    requires ValidKey(k)
    requires ParseLines(Edited(front, k, v)) ==
      if Hit(front, k) then ParseLines(front)[k := Trim(v)] else ParseLines(front)
    ensures var lines := front + [line];
      ParseLines(Edited(lines, k, v)) == if Hit(lines, k) then ParseLines(lines)[k := Trim(v)] else ParseLines(lines)
  {
    HitSnoc(front, line, k);
    EditedSnoc(front, line, k, v);
    KeysAgree(line);
    ParseAppend(front, line);
    var out := ParseLines(front);
    if EditKey(line) == Some(k) {
      AssignmentSays(k, v);
      ParseAppend(Edited(front, k, v), Assignment(k, v));
      OwnNote(out, Says(line), k, Trim(v));
    } else {
      ParseAppend(Edited(front, k, v), line);
      OtherNote(out, Says(line), k, Trim(v));
    }
  }

  lemma ParseAfterEdit(lines: seq<string>, k: string, v: string)
    requires ValidKey(k)
    ensures ParseLines(EditLines(lines, k, v)) == ParseLines(lines)[k := Trim(v)]
  {
    ParseEdited(lines, k, v);
    AssignmentSays(k, v);
    var e := Edited(lines, k, v);
    assert (e + [Assignment(k, v)])[..|e|] == e;
    assert e + [] == e;
  }

  lemma EditedOneLine(lines: seq<string>, k: string, v: string)
    requires AllOneLine(lines) && ValidKey(k) && OneLine(v)
    ensures AllOneLine(EditLines(lines, k, v))
  {
    assert OneLine(Assignment(k, v));
  }

  /** What the file's lines are after an edit, to the editor and to both readers. */
  lemma EditedFile(content: string, k: string, v: string)
    requires Plain(content) && ValidKey(k) && OneLine(v)
    ensures var c, lines := Upsert(content, k, v), EditLines(SplitCrLf(content), k, v);
      SplitCrLf(c) == lines && Split(c, AtTerminator()) == lines && Split(c, AtLf()) == lines
  {
    var lines := EditLines(SplitCrLf(content), k, v);
    PlainLines(content);
    EditedOneLine(SplitCrLf(content), k, v);
    SplitCrLfJoin(lines);
    SplitJoin(lines, AtTerminator());
    SplitJoin(lines, AtLf());
  }

  /** After an edit both readers give the trimmed value for the key, whatever was
      there, how often and in what spacing; and for every other key what they gave. */
  lemma ReadersSeeEdit(content: string, k: string, v: string, j: string)
    requires Plain(content) && ValidKey(k) && OneLine(v) && ValidKey(j)
    ensures GetKey(Upsert(content, k, v), j) == if j == k then Trim(v) else GetKey(content, j)
    ensures Parse(Upsert(content, k, v)) == Parse(content)[k := Trim(v)]
  {
    EditedFile(content, k, v);
    FirstAfterEdit(SplitCrLf(content), k, v, j);
    GetKeySees(content, j);
    ParseAfterEdit(SplitCrLf(content), k, v);
    ParseSees(content);
  }

  lemma EditTwice(lines: seq<string>, k: string, v: string)
    requires ValidKey(k)
    ensures EditLines(EditLines(lines, k, v), k, v) == EditLines(lines, k, v)
  {
    var t := EditLines(lines, k, v);
    AssignmentSays(k, v);
    KeysAgree(Assignment(k, v));
    EditHits(lines, k, v);
    OnlyAssignments(lines, k, v);
    EditedFixed(t, k, v);
    assert t + [] == t;
  }

  ghost predicate Settled(lines: seq<string>, k: string, v: string) {
    forall i :: 0 <= i < |lines| && EditKey(lines[i]) == Some(k) ==> lines[i] == Assignment(k, v)
  }

  lemma OnlyAssignments(lines: seq<string>, k: string, v: string)
    ensures Settled(EditLines(lines, k, v), k, v)
  {
  }

  lemma EditedFixed(lines: seq<string>, k: string, v: string)
    requires Settled(lines, k, v)
    ensures Edited(lines, k, v) == lines
  {
  }

  lemma EditHits(lines: seq<string>, k: string, v: string)
    requires EditKey(Assignment(k, v)) == Some(k)
    ensures Hit(EditLines(lines, k, v), k)
  {
    var t := EditLines(lines, k, v);
    if Hit(lines, k) {
      var i :| 0 <= i < |lines| && EditKey(lines[i]) == Some(k);
      assert EditKey(t[i]) == Some(k);
    } else {
      assert EditKey(t[|lines|]) == Some(k);
    }
  }

  /** The same edit again changes nothing. */
  lemma EditIdempotent(content: string, k: string, v: string)
    requires Plain(content) && ValidKey(k) && OneLine(v)
    ensures Upsert(Upsert(content, k, v), k, v) == Upsert(content, k, v)
  {
    EditedFile(content, k, v);
    EditTwice(SplitCrLf(content), k, v);
  }

  lemma CommentIsNobodys(line: string)
    requires line != "" && line[0] == '#'
    ensures EditKey(line) == None
  {
    var a, b := HasCore(line);
    assert !Space(line[0]);
    TrimCore(line, 0, b);
  }

  /** Why the file has to be plain: behind a lone CR or an exotic line end in a
      comment, `getKey` goes on finding an old assignment that the editor cannot see. */
  lemma HiddenLineWins(k: string, was: string, v: string, e: char)
    requires ValidKey(k) && OneLine(was) && OneLine(v) && Terminator(e) && e != '\n'
    ensures GetKey(Upsert("#" + [e] + Assignment(k, was), k, v), k) == Trim(was)
  {
    var one, two := Assignment(k, was), Assignment(k, v);
    CommentLine(e, one, two);
    CommentIsNobodys("#" + [e] + one);
    UpsertAppends("#" + [e] + one, k, v);
    SplitBoth(e, one, two);
    SecondFound(k, was, Split(two, AtTerminator()));
  }

  lemma CommentLine(e: char, one: string, two: string)
    requires e != '\n' && OneLine(one)
    ensures '\n' !in "#" + [e] + one
    ensures "#" + [e] + one + "\n" + two == "#" + [e] + (one + "\n" + two)
  {
    assert forall i :: 0 <= i < |one| ==> one[i] != '\n';
  }

  lemma UpsertAppends(line: string, k: string, v: string)
    requires '\n' !in line && EditKey(line) == None
    ensures Upsert(line, k, v) == line + "\n" + Assignment(k, v)
  {
    Unsplit(line);
    assert Edited([line], k, v) == [line];
    assert !Hit([line], k);
    assert EditLines([line], k, v) == [line, Assignment(k, v)];
    JoinTwo(line, Assignment(k, v));
  }

  lemma JoinTwo(x: string, y: string)
    ensures Join([x, y]) == x + "\n" + y
  {
    assert [x, y][1..] == [y] && Join([y]) == y;
  }

  lemma SplitBoth(e: char, one: string, two: string)
    requires Terminator(e) && OneLine(one)
    ensures Split("#" + [e] + (one + "\n" + two), AtTerminator()) == ["#"] + ([one] + Split(two, AtTerminator()))
  {
    SplitFirst("#", e, one + "\n" + two, AtTerminator());
    SplitFirst(one, '\n', two, AtTerminator());
  }

  lemma SecondFound(k: string, was: string, rest: seq<string>)
    requires ValidKey(k)
    ensures First(["#"] + ([Assignment(k, was)] + rest), k) == Some(was)
  {
    FirstCons("#", [Assignment(k, was)] + rest, k);
    FirstCons(Assignment(k, was), rest, k);
    AssignmentBegins(k, was, k);
  }

  lemma {:induction false} Unsplit(s: string)
    requires '\n' !in s
    ensures SplitCrLf(s) == [s]
    decreases |s|
  {
    if s != "" {
      Unsplit(s[1..]);
      assert [s[0]] + s[1..] == s;
    }
  }

  // ------------------------------------------ the laws for files of any kind

  lemma {:induction false} SplitConcat(a: string, e: char, b: string, p: char -> bool)
    requires p(e)
    ensures Split(a + [e] + b, p) == Split(a, p) + Split(b, p)
    decreases |a|
  {
    var s := a + [e] + b;
    if a == "" {
      assert s[0] == e && s[1..] == b;
    } else {
      SplitConcat(a[1..], e, b, p);
      assert s[0] == a[0] && s[1..] == a[1..] + [e] + b;
      HeadJoined([""], Split(a[1..], p), Split(b, p), a[0]);
    }
  }

  lemma HeadJoined(x: seq<string>, y: seq<string>, z: seq<string>, c: char)
    requires y != []
    ensures x + (y + z) == x + y + z
    ensures [[c] + (y + z)[0]] + (y + z)[1..] == [[c] + y[0]] + y[1..] + z
  {
    assert (y + z)[1..] == y[1..] + z;
    assert [[c] + y[0]] + (y[1..] + z) == [[c] + y[0]] + y[1..] + z;
  }

  lemma {:induction false} NothingToSplit(s: string)
    requires '\n' !in s
    ensures Split(s, AtLf()) == [s]
    decreases |s|
  {
    if s != "" {
      NothingToSplit(s[1..]);
      assert [s[0]] + s[1..] == s;
    }
  }

  ghost predicate NoLf(lines: seq<string>) { forall i :: 0 <= i < |lines| ==> '\n' !in lines[i] }

  lemma {:induction false} LfSplitJoin(lines: seq<string>)
    requires lines != [] && NoLf(lines)
    ensures Split(Join(lines), AtLf()) == lines
    decreases |lines|
  {
    NothingToSplit(lines[0]);
    if |lines| > 1 {
      LfSplitJoin(lines[1..]);
      SplitConcat(lines[0], '\n', Join(lines[1..]), AtLf());
    }
  }

  lemma {:induction false} CrLfLines(s: string)
    ensures NoLf(SplitCrLf(s))
    decreases |s|
  {
    if s == "" {
    } else if s[0] == '\r' && |s| > 1 && s[1] == '\n' {
      CrLfLines(s[2..]);
    } else {
      CrLfLines(s[1..]);
      var t := SplitCrLf(s[1..]);
      assert '\n' !in t[0];
    }
  }

  /** Whatever line ends the file has, the map reader gives the trimmed value for the
      key and for every other key what it gave before. */
  lemma MapSeesEdit(content: string, k: string, v: string)
    requires ValidKey(k) && '\n' !in v
    ensures Parse(Upsert(content, k, v)) == Parse(content)[k := Trim(v)]
  {
    var lines := SplitCrLf(content);
    CrLfLines(content);
    assert '\n' !in Assignment(k, v) by {
      assert forall i :: 0 <= i < |k| ==> Name(k[i]);
    }
    LfSplitJoin(EditLines(lines, k, v));
    ParseAfterEdit(lines, k, v);
    ParseSees(content);
  }

  /** What the pattern finds in a line that may hold further line ends. */
  function Inner(line: string, k: string): Option<string> { First(Split(line, AtTerminator()), k) }

  function FirstIn(lines: seq<string>, k: string): Option<string> {
    if lines == [] then None
    else if Inner(lines[0], k).Some? then Inner(lines[0], k)
    else FirstIn(lines[1..], k)
  }

  /** An assignment that only the pattern sees, because it stands behind another line
      end within a line, and that comes before every line the editor recognises. */
  function Hidden(lines: seq<string>, k: string): Option<string> {
    if lines == [] || EditKey(lines[0]) == Some(k) then None
    else if Inner(lines[0], k).Some? then Inner(lines[0], k)
    else Hidden(lines[1..], k)
  }

  lemma {:induction false} FirstConcat(x: seq<string>, y: seq<string>, k: string)
    ensures First(x + y, k) == if First(x, k).Some? then First(x, k) else First(y, k)
    decreases |x|
  {
    if x == [] {
      assert x + y == y;
    } else {
      FirstConcat(x[1..], y, k);
      assert (x + y)[1..] == x[1..] + y;
    }
  }

  lemma {:induction false} FirstJoined(lines: seq<string>, k: string)
    requires lines != []
    ensures First(Split(Join(lines), AtTerminator()), k) == FirstIn(lines, k)
    decreases |lines|
  {
    if |lines| > 1 {
      var rest := Join(lines[1..]);
      FirstJoined(lines[1..], k);
      SplitConcat(lines[0], '\n', rest, AtTerminator());
      FirstConcat(Split(lines[0], AtTerminator()), Split(rest, AtTerminator()), k);
    } else {
      assert lines[1..] == [];
    }
  }

  lemma InnerAssignment(k: string, v: string)
    requires ValidKey(k) && OneLine(v)
    ensures Inner(Assignment(k, v), k) == Some(v)
  {
    SplitOne(Assignment(k, v), AtTerminator());
    AssignmentBegins(k, v, k);
    FirstCons(Assignment(k, v), [], k);
    assert [Assignment(k, v)] + [] == [Assignment(k, v)];
  }

  lemma {:induction false} FirstInEdited(lines: seq<string>, k: string, v: string)
    requires ValidKey(k) && OneLine(v)
    ensures FirstIn(Edited(lines, k, v), k) ==
      if Hidden(lines, k).Some? then Hidden(lines, k) else if Hit(lines, k) then Some(v) else None
    decreases |lines|
  {
    if lines != [] {
      FirstInEdited(lines[1..], k, v);
      HitTail(lines, k);
      EditedHead(lines, k, v);
      InnerAssignment(k, v);
      var e := Edited(lines, k, v);
      assert e[1..] == Edited(lines[1..], k, v);
    }
  }

  lemma {:induction false} FirstInSnoc(lines: seq<string>, line: string, k: string)
    ensures FirstIn(lines + [line], k) == if FirstIn(lines, k).Some? then FirstIn(lines, k) else Inner(line, k)
    decreases |lines|
  {
    if lines == [] {
      assert [] + [line] == [line] && [line][1..] == [];
    } else {
      FirstInSnoc(lines[1..], line, k);
      assert (lines + [line])[1..] == lines[1..] + [line];
    }
  }

  /** For every file: after an edit the pattern gives the new value, unless an
      assignment hidden from the editor stands before every line it recognises; then
      it gives that one. */
  lemma GetKeyExactly(content: string, k: string, v: string)
    requires ValidKey(k) && OneLine(v)
    ensures var hidden := Hidden(SplitCrLf(content), k);
      GetKey(Upsert(content, k, v), k) == if hidden.Some? then Trim(hidden.value) else Trim(v)
  {
    var lines := SplitCrLf(content);
    FirstInEdited(lines, k, v);
    InnerAssignment(k, v);
    FirstInSnoc(Edited(lines, k, v), Assignment(k, v), k);
    FirstJoined(EditLines(lines, k, v), k);
    assert Edited(lines, k, v) + [] == Edited(lines, k, v);
  }

  /** Nothing is hidden in a plain file. */
  lemma {:induction false} PlainHidesNothing(lines: seq<string>, k: string)
    requires ValidKey(k) && AllOneLine(lines)
    ensures Hidden(lines, k) == None
    decreases |lines|
  {
    if lines != [] {
      PlainHidesNothing(lines[1..], k);
      SplitOne(lines[0], AtTerminator());
      FirstCons(lines[0], [], k);
      assert [lines[0]] + [] == [lines[0]];
      if Begins(lines[0], k) {
        BeginsHasKey(lines[0], k);
      }
    }
  }

  /** What the pattern gives for what it found. */
  function Said(found: Option<string>): string { if found.Some? then Trim(found.value) else "" }

  /** The lines an edit of `k` leaves as they are. */
  function Kept(lines: seq<string>, k: string): seq<string> {
    if lines == [] then []
    else if EditKey(lines[0]) == Some(k) then Kept(lines[1..], k)
    else [lines[0]] + Kept(lines[1..], k)
  }

  lemma InnerOther(k: string, v: string, j: string)
    requires ValidKey(k) && OneLine(v) && ValidKey(j) && j != k
    ensures Inner(Assignment(k, v), j) == None
  {
    SplitOne(Assignment(k, v), AtTerminator());
    AssignmentBegins(k, v, j);
    FirstCons(Assignment(k, v), [], j);
    assert [Assignment(k, v)] + [] == [Assignment(k, v)];
  }

  lemma FirstInCons(line: string, rest: seq<string>, j: string)
    ensures FirstIn([line] + rest, j) == if Inner(line, j).Some? then Inner(line, j) else FirstIn(rest, j)
  {
    assert ([line] + rest)[1..] == rest;
  }

  lemma {:induction false} OtherInEdited(lines: seq<string>, k: string, v: string, j: string)
    requires ValidKey(k) && OneLine(v) && ValidKey(j) && j != k
    ensures FirstIn(Edited(lines, k, v), j) == FirstIn(Kept(lines, k), j)
    decreases |lines|
  {
    if lines != [] {
      OtherInEdited(lines[1..], k, v, j);
      EditedHead(lines, k, v);
      if EditKey(lines[0]) == Some(k) {
        InnerOther(k, v, j);
        FirstInCons(Assignment(k, v), Edited(lines[1..], k, v), j);
      } else {
        FirstInCons(lines[0], Edited(lines[1..], k, v), j);
        FirstInCons(lines[0], Kept(lines[1..], k), j);
      }
    }
  }

  lemma InnerCr(line: string, j: string)
    ensures Inner(line + "\r", j) == Inner(line, j)
  {
    var x := Split(line, AtTerminator());
    SplitConcat(line, '\r', "", AtTerminator());
    assert line + ['\r'] + "" == line + "\r";
    FirstConcat(x, [""], j);
    assert First([""], j) == None;
  }

  lemma {:induction false} FirstInAlike(x: seq<string>, y: seq<string>, j: string)
    requires |x| == |y| && forall i :: 0 <= i < |x| ==> Inner(x[i], j) == Inner(y[i], j)
    ensures FirstIn(x, j) == FirstIn(y, j)
    decreases |x|
  {
    if x != [] {
      FirstInAlike(x[1..], y[1..], j);
    }
  }

  lemma {:induction false} JoinSplit(s: string)
    ensures Join(Split(s, AtLf())) == s
    decreases |s|
  {
    if s != "" {
      var t := Split(s[1..], AtLf());
      JoinSplit(s[1..]);
      if s[0] == '\n' {
        assert ([""] + t)[1..] == t;
      } else {
        assert ([[s[0]] + t[0]] + t[1..])[1..] == t[1..];
        assert Join([[s[0]] + t[0]] + t[1..]) == [s[0]] + Join(t);
      }
    }
  }

  /** The pattern goes through a file line by line, as the editor splits it. */
  lemma FirstByLine(s: string, j: string)
    ensures GetKey(s, j) == Said(FirstIn(SplitCrLf(s), j))
  {
    var x, y := Split(s, AtLf()), SplitCrLf(s);
    JoinSplit(s);
    FirstJoined(x, j);
    LfLines(s);
    forall i | 0 <= i < |x| ensures Inner(x[i], j) == Inner(y[i], j) {
      assert CrMore(x[i], y[i]);
      InnerCr(y[i], j);
    }
    FirstInAlike(x, y, j);
  }

  /** For every file and another key: before an edit the pattern gives what it finds in
      all lines, afterwards what it finds in those that were not replaced. */
  lemma OtherKeyExactly(content: string, k: string, v: string, j: string)
    requires ValidKey(k) && OneLine(v) && ValidKey(j) && j != k
    ensures GetKey(content, j) == Said(FirstIn(SplitCrLf(content), j))
    ensures GetKey(Upsert(content, k, v), j) == Said(FirstIn(Kept(SplitCrLf(content), k), j))
  {
    var lines := SplitCrLf(content);
    FirstByLine(content, j);
    OtherInEdited(lines, k, v, j);
    InnerOther(k, v, j);
    FirstInSnoc(Edited(lines, k, v), Assignment(k, v), j);
    FirstJoined(EditLines(lines, k, v), j);
    assert Edited(lines, k, v) + [] == Edited(lines, k, v);
  }

  predicate EndsCr(line: string) { line != "" && line[|line| - 1] == '\r' }

  /** A line as it is split off in front of an LF. */
  function ShedOne(line: string): string { if EndsCr(line) then line[..|line| - 1] else line }

  function Shed(lines: seq<string>): (t: seq<string>)
    ensures |t| == |lines|
  {
    seq(|lines|, i requires 0 <= i < |lines| => if i + 1 < |lines| then ShedOne(lines[i]) else lines[i])
  }

  /** No line but the last ends in CR. */
  predicate Bare(lines: seq<string>) { forall i :: 0 <= i && i + 1 < |lines| ==> !EndsCr(lines[i]) }

  lemma {:induction false} CrLfAfter(l: string, rest: string)
    requires '\n' !in l
    ensures SplitCrLf(l + "\n" + rest) == [ShedOne(l)] + SplitCrLf(rest)
    decreases |l|
  {
    var s := l + "\n" + rest;
    if l == "" {
      assert s[1..] == rest;
    } else if l == "\r" {
      assert s[0] == '\r' && s[1] == '\n' && s[2..] == rest;
    } else {
      CrLfAfter(l[1..], rest);
      assert s[0] == l[0] && s[1..] == l[1..] + "\n" + rest;
      assert |l| > 1 ==> s[1] == l[1];
      var t := [ShedOne(l[1..])] + SplitCrLf(rest);
      assert t[1..] == SplitCrLf(rest);
      ShedCons(l);
    }
  }

  lemma ShedCons(l: string)
    requires l != "" && l != "\r"
    ensures ShedOne(l) == [l[0]] + ShedOne(l[1..])
  {
    if |l| > 1 {
      assert l == [l[0]] + l[1..];
      assert EndsCr(l) <==> EndsCr(l[1..]);
    }
  }

  lemma ShedHead(lines: seq<string>)
    requires |lines| > 1
    ensures Shed(lines) == [ShedOne(lines[0])] + Shed(lines[1..])
  {
  }

  lemma {:induction false} CrLfOfJoin(lines: seq<string>)
    requires lines != [] && NoLf(lines)
    ensures SplitCrLf(Join(lines)) == Shed(lines)
    decreases |lines|
  {
    if |lines| == 1 {
      Unsplit(lines[0]);
    } else {
      CrLfOfJoin(lines[1..]);
      CrLfAfter(lines[0], Join(lines[1..]));
      ShedHead(lines);
    }
  }

  lemma KeyOfShed(line: string)
    ensures EditKey(ShedOne(line)) == EditKey(line)
  {
    if EndsCr(line) {
      var l := ShedOne(line);
      assert line == l + "\r";
      SameTrim(l, line);
      KeysAgree(l);
      KeysAgree(line);
    }
  }

  lemma ShedSettled(lines: seq<string>, k: string, v: string)
    requires ValidKey(k) && OneLine(v) && Settled(lines, k, v)
    ensures Settled(Shed(lines), k, v)
  {
    var t := Shed(lines);
    forall i | 0 <= i < |t| && EditKey(t[i]) == Some(k) ensures t[i] == Assignment(k, v) {
      KeyOfShed(lines[i]);
      assert !EndsCr(Assignment(k, v));
    }
  }

  lemma ShedHits(lines: seq<string>, k: string)
    requires Hit(lines, k)
    ensures Hit(Shed(lines), k)
  {
    var i :| 0 <= i < |lines| && EditKey(lines[i]) == Some(k);
    KeyOfShed(lines[i]);
    assert EditKey(Shed(lines)[i]) == Some(k);
  }

  lemma ShedSame(lines: seq<string>)
    ensures Shed(lines) == lines <==> Bare(lines)
  {
    var t := Shed(lines);
    if t == lines {
      forall i | 0 <= i && i + 1 < |lines| ensures !EndsCr(lines[i]) {
        assert t[i] == ShedOne(lines[i]) && t[i] == lines[i];
      }
    }
  }

  lemma EditedNoLf(content: string, k: string, v: string)
    requires ValidKey(k) && OneLine(v)
    ensures NoLf(EditLines(SplitCrLf(content), k, v)) && NoLf(Shed(EditLines(SplitCrLf(content), k, v)))
  {
    CrLfLines(content);
    assert '\n' !in Assignment(k, v) by {
      assert forall i :: 0 <= i < |k| ==> Name(k[i]);
    }
  }

  /** For every file: the same edit again changes nothing exactly when no line of the
      edited file but the last ends in CR. */
  lemma IdempotentExactly(content: string, k: string, v: string)
    requires ValidKey(k) && OneLine(v)
    ensures Upsert(Upsert(content, k, v), k, v) == Upsert(content, k, v) <==> Bare(EditLines(SplitCrLf(content), k, v))
  {
    var e := EditLines(SplitCrLf(content), k, v);
    EditedNoLf(content, k, v);
    CrLfOfJoin(e);
    AssignmentSays(k, v);
    KeysAgree(Assignment(k, v));
    EditHits(SplitCrLf(content), k, v);
    OnlyAssignments(SplitCrLf(content), k, v);
    ShedSettled(e, k, v);
    ShedHits(e, k);
    EditedFixed(Shed(e), k, v);
    assert Shed(e) + [] == Shed(e);
    ShedSame(e);
    LfSplitJoin(e);
    LfSplitJoin(Shed(e));
  }

  // ----------------------------------------------- every line, in any spacing

  lemma BlankConcat(s: string, t: string)
    requires Blank(s) && Blank(t)
    ensures Blank(s + t)
  {
  }

  /** Spaces around a text that has none at its ends are what trimming takes off. */
  lemma TrimSpaced(before: string, x: string, behind: string)
    requires Blank(before) && Blank(behind) && Trim(x) == x
    ensures Trim(before + x + behind) == x
  {
    var line := before + x + behind;
    if x == "" {
      BlankConcat(before, behind);
      assert line == before + behind;
      TrimBlank(line);
    } else {
      var a, b := HasCore(x);
      if Blank(x) {
        TrimBlank(x);
      } else {
        TrimCore(x, a, b);
        assert x[a..b] == x ==> a == 0 && b == |x|;
        assert line[|before|] == x[0] && line[|before| + |x| - 1] == x[|x| - 1];
        SpacedCore(before, x, behind);
        TrimCore(line, |before|, |before| + |x|);
        assert line[|before|..|before| + |x|] == x;
      }
    }
  }

  lemma SpacedCore(before: string, x: string, behind: string)
    requires Blank(before) && Blank(behind) && x != "" && !Space(x[0]) && !Space(x[|x| - 1])
    ensures Core(before + x + behind, |before|, |before| + |x|)
  {
    var line := before + x + behind;
    forall k | |before| + |x| <= k < |line| ensures Space(line[k]) {
      assert line[k] == behind[k - |before| - |x|];
    }
  }

  /** An assignment in any spacing says its key and value, to the reader and the editor;
      the value may hold further equals signs and a `#`. */
  lemma SpacedSays(a: string, key: string, b: string, c: string, value: string, d: string)
    requires Blank(a) && Blank(b) && Blank(c) && Blank(d) && Trim(key) == key && Trim(value) == value
    requires '=' !in key && key != "" && key[0] != '#'
    ensures var line := a + key + b + "=" + c + value + d;
      Says(line) == Some(Pair(key, value)) && EditKey(line) == Some(key)
  {
    var line, tail := a + key + b + "=" + c + value + d, if value == "" then "" else c + value;
    SpacedTrim(a, key, b, c, value, d);
    NoEquals(b);
    SaysOf(line, key + b, tail);
    TrimSpaced("", key, b);
    assert "" + key + b == key + b;
    if value != "" {
      TrimSpaced(c, value, "");
      assert c + value + "" == c + value;
    } else {
      TrimBlank(tail);
    }
    KeysAgree(line);
  }

  lemma SaysOf(line: string, head: string, tail: string)
    requires Trim(line) == head + "=" + tail && '=' !in head && head != "" && head[0] != '#'
    ensures Says(line) == Some(Pair(Trim(head), Trim(tail)))
  {
    var t := Trim(line);
    IndexIs(t, '=', |head|);
    assert t[..|head|] == head && t[|head| + 1..] == tail;
  }

  lemma NoEquals(b: string)
    requires Blank(b)
    ensures '=' !in b
  {
    forall i | 0 <= i < |b| ensures b[i] != '=' {
      assert Space(b[i]);
    }
  }

  /** The value's spaces go with the line's own, or are left for the value's own trimming. */
  lemma SpacedTrim(a: string, key: string, b: string, c: string, value: string, d: string)
    requires Blank(a) && Blank(b) && Blank(c) && Blank(d) && Trim(key) == key && Trim(value) == value && key != ""
    ensures Trim(a + key + b + "=" + c + value + d) == key + b + "=" + (if value == "" then "" else c + value)
  {
    var line := a + key + b + "=" + c + value + d;
    var x := key + b + "=" + (if value == "" then "" else c + value);
    var rest := if value == "" then c + d else d;
    BlankConcat(c, d);
    assert line == a + x + rest;
    TextEnds(key);
    if value != "" {
      TextEnds(value);
      assert x[|x| - 1] == value[|value| - 1];
    }
    assert x[0] == key[0];
    SpacedCore(a, x, rest);
    TrimCore(line, |a|, |a| + |x|);
    assert line[|a|..|a| + |x|] == x;
  }

  lemma TextEnds(x: string)
    requires Trim(x) == x && x != ""
    ensures !Space(x[0]) && !Space(x[|x| - 1])
  {
    var a, b := HasCore(x);
    if Blank(x) {
      TrimBlank(x);
    } else {
      TrimCore(x, a, b);
    }
  }

  lemma CommentSays(line: string, n: nat)
    requires n < |line| && line[n] == '#' && Blank(line[..n])
    ensures Says(line) == None
  {
    var a, b := HasCore(line);
    assert forall k :: 0 <= k < n ==> Space(line[..n][k]) && line[..n][k] == line[k];
    assert !Space(line[n]);
    TrimCore(line, a, b);
  }

  /** A blank line, a comment behind any spaces, and a line without an equals sign say
      nothing to either. */
  lemma NothingSaid(line: string)
    requires Blank(line) || '=' !in line || exists n :: 0 <= n < |line| && line[n] == '#' && Blank(line[..n])
    ensures Says(line) == None && EditKey(line) == None
  {
    KeysAgree(line);
    if Blank(line) {
      TrimBlank(line);
    } else if '=' !in line {
      var a, b := HasCore(line);
      TrimCore(line, a, b);
      NoIndex(line, '=', a, b);
    } else {
      var n :| 0 <= n < |line| && line[n] == '#' && Blank(line[..n]);
      CommentSays(line, n);
    }
  }

  /** The lines of the edited file are those of the file, in their order, with every line
      that assigns the key replaced; if there was none, one more is put behind them. */
  lemma LinesKept(content: string, k: string, v: string, i: nat)
    requires ValidKey(k) && '\n' !in v
    ensures var old_, new_ := SplitCrLf(content), Split(Upsert(content, k, v), AtLf());
      var known := exists j :: 0 <= j < |old_| && Says(old_[j]).Some? && Says(old_[j]).value.key == k;
      && |new_| == |old_| + (if known then 0 else 1)
      && (i < |old_| ==>
            new_[i] == if Says(old_[i]).Some? && Says(old_[i]).value.key == k then k + "=" + v else old_[i])
      && (!known ==> new_[|old_|] == k + "=" + v)
  {
    var lines := SplitCrLf(content);
    CrLfLines(content);
    assert '\n' !in Assignment(k, v) by {
      assert forall j :: 0 <= j < |k| ==> Name(k[j]);
    }
    LfSplitJoin(EditLines(lines, k, v));
    forall j | 0 <= j < |lines|
      ensures EditKey(lines[j]) == Some(k) <==> Says(lines[j]).Some? && Says(lines[j]).value.key == k
    {
      KeysAgree(lines[j]);
    }
  }
}
