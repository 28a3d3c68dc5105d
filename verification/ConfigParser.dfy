// The configuration parser as the program runs it: one character buffer, cut into lines,
// comments, keys and values by writing NULs into it. It computes the pure parse of ConfigText.
//
// Index 0 of the buffer is the byte in front of the text; walking back over a blank first line
// ends there.

module ConfigParser {
  import opened CLib
  import opened CStrings
  import opened ConfigText

  /** All that changed are characters up to position `z`, which became NUL; the byte in front of
      the text stayed. */
  ghost predicate OnlyNuls(before: seq<char>, after: seq<char>, z: int) {
    && |before| == |after|
    && forall i :: 0 <= i < |after| ==> after[i] == before[i] || (1 <= i <= z && after[i] == NUL)
  }

  lemma CharsOf(buf: array<char>, p: nat, s: string)
    requires CStr(buf[..], p, s)
    ensures forall j {:trigger buf[j]} :: p <= j < p + |s| ==> buf[j] == s[j - p] != NUL
  {
  }

  lemma TailOf(buf: seq<char>, p: int, s: string, n: nat)
    requires CStr(buf, p, s) && n <= |s|
    ensures CStr(buf, p + n, s[n..])
  {
    forall i | 0 <= i < |s[n..]|
      ensures buf[p + n + i] == s[n..][i] != NUL
    {
      assert s[n..][i] == s[n + i];
    }
  }

  /** Writing a NUL at position `n` of a string cuts it there and leaves the rest behind it. */
  lemma CutAt(buf: seq<char>, p: int, s: string, n: nat)
    requires CStr(buf, p, s) && n < |s| && p >= 1
    ensures CStr(buf[p + n := NUL], p, s[..n])
    ensures CStr(buf[p + n := NUL], p + n + 1, s[n + 1..])
    ensures OnlyNuls(buf, buf[p + n := NUL], p + n)
  {
    TailOf(buf, p, s, n + 1);
  }

  // ---------- string.h ----------

  method StrLen(buf: array<char>, p: nat, ghost s: string) returns (z: nat)
    requires CStr(buf[..], p, s)
    ensures z == p + |s|
  {
    CharsOf(buf, p, s);
    z := p;
    while buf[z] != NUL
      invariant p <= z <= p + |s|
      decreases p + |s| - z
    {
      z := z + 1;
    }
  }

  // strchr, with -1 for NULL
  method StrChr(buf: array<char>, p: nat, c: char, ghost s: string) returns (r: int)
    requires CStr(buf[..], p, s) && c != NUL
    ensures r == if Find(s, c, 0) == |s| then -1 else p + Find(s, c, 0)
  {
    CharsOf(buf, p, s);
    r := p;
    while buf[r] != NUL && buf[r] != c
      invariant p <= r <= p + |s|
      invariant forall j :: 0 <= j < r - p ==> s[j] != c
      decreases p + |s| - r
    {
      r := r + 1;
    }
    if buf[r] == NUL {
      r := -1;
    }
  }

  method ReadCStr(buf: array<char>, p: nat, ghost s: string) returns (t: string)
    requires CStr(buf[..], p, s)
    ensures t == s
  {
    var z := StrLen(buf, p, s);
    t := buf[p..z];
  }

  // ---------- configTrim ----------

  /** The walk forward over white space. */
  method WalkForward(buf: array<char>, p: nat, ghost s: string) returns (q: nat)
    requires CStr(buf[..], p, s)
    ensures q == p + SkipSpace(s, 0)
  {
    CharsOf(buf, p, s);
    q := p;
    while IsSpace(buf[q])
      invariant p <= q <= p + |s|
      invariant forall j :: 0 <= j < q - p ==> IsSpace(s[j])
      decreases p + |s| - q
    {
      q := q + 1;
    }
  }

  /** The walk back over white space; it may leave the string, but not the buffer. */
  method WalkBack(buf: array<char>, last: int) returns (end: nat)
    requires 0 <= last < buf.Length && !IsSpace(buf[0])
    ensures end <= last && !IsSpace(buf[end])
    ensures forall j :: end < j <= last ==> IsSpace(buf[j])
  {
    end := last;
    while IsSpace(buf[end])
      invariant end <= last
      invariant forall j :: end < j <= last ==> IsSpace(buf[j])
      decreases end
    {
      end := end - 1;
    }
  }

  /** Where the walk back ends: at the last character that is no white space, or in front of a
      blank string. */
  lemma WalkBackEnds(buf: array<char>, p: nat, s: string, end: nat)
    requires CStr(buf[..], p, s) && end < p + |s| && !IsSpace(buf[end])
    requires forall j :: end < j < p + |s| ==> IsSpace(buf[j])
    ensures DropSpace(s, |s|) > 0 ==> end + 1 == p + DropSpace(s, |s|)
    ensures DropSpace(s, |s|) == 0 ==> end < p
  {
    CharsOf(buf, p, s);
    var b := DropSpace(s, |s|);
    if b > 0 {
      assert buf[p + b - 1] == s[b - 1];
    }
    if end >= p {
      assert buf[end] == s[end - p];
    }
  }

  /** Cutting a string at its last character that is no white space, from its first one on. */
  lemma CutTrims(before: seq<char>, after: seq<char>, p: nat, q: nat, s: string, w: nat)
    requires CStr(before, p, s) && 1 <= w <= p + |s| && after == before[w := NUL]
    requires q == p + SkipSpace(s, 0)
    requires var b := DropSpace(s, |s|); if b > 0 then w == p + b else w <= p
    ensures CStr(after, q, Trim(s)) && q + |Trim(s)| <= p + |s|
  {
    var a, b := SkipSpace(s, 0), DropSpace(s, |s|);
    if b > 0 {
      assert a < b;
      assert Trim(s) == s[a..b];
    } else {
      assert a == |s|;
    }
  }

  ghost predicate SamePrefix(before: seq<char>, after: seq<char>, p: nat) {
    && |before| == |after|
    && forall i :: 0 <= i < p && i < |after| ==> after[i] == before[i]
  }

  lemma OneNul(before: seq<char>, after: seq<char>, w: nat, z: int, p: nat)
    requires 1 <= w <= z && w < |before| && after == before[w := NUL]
    ensures OnlyNuls(before, after, z)
    ensures p <= w ==> SamePrefix(before, after, p)
  {
  }

  /** The second half of configTrim: finds the end, walks back over white space, writes the NUL. */
  method CutBack(buf: array<char>, p: nat, q: nat, ghost s: string) returns (ghost w: nat)
    requires 1 <= p && CStr(buf[..], p, s) && !IsSpace(buf[0]) && q == p + SkipSpace(s, 0)
    modifies buf
    ensures 1 <= w <= p + |s| && buf[..] == old(buf[..])[w := NUL]
    ensures var b := DropSpace(s, |s|); if b > 0 then w == p + b else w <= p
    ensures !IsSpace(old(buf[p - 1])) ==> w >= p
  {
    TailOf(buf[..], p, s, q - p);
    var z := StrLen(buf, q, s[q - p..]);
    var end := WalkBack(buf, z - 1);
    WalkBackEnds(buf, p, s, end);
    w := end + 1;
    ghost var before := buf[..];
    buf[end + 1] := NUL;
    assert buf[..] == before[w := NUL];
  }

  /** configTrim: the result is the trimmed string, in place. One NUL is written, not behind the
      string's end; when the character in front is no white space, not in front of the string. */
  method TrimInPlace(buf: array<char>, p: nat, ghost s: string) returns (q: nat)
    requires 1 <= p && CStr(buf[..], p, s) && !IsSpace(buf[0])
    modifies buf
    ensures p <= q && q + |Trim(s)| <= p + |s| && CStr(buf[..], q, Trim(s))
    ensures OnlyNuls(old(buf[..]), buf[..], p + |s|)
    ensures !IsSpace(old(buf[p - 1])) ==> SamePrefix(old(buf[..]), buf[..], p)
  {
    q := WalkForward(buf, p, s);
    ghost var w := CutBack(buf, p, q, s);
    CutTrims(old(buf[..]), buf[..], p, q, s, w);
    OneNul(old(buf[..]), buf[..], w, p + |s|, p);
  }

  // ---------- one line ----------

  /** strchr and cut: the string loses everything from the first '#' on. */
  method CutComment(buf: array<char>, line: nat, ghost token: string)
    requires 1 <= line && CStr(buf[..], line, token)
    modifies buf
    ensures CStr(buf[..], line, token[..Find(token, '#', 0)])
    ensures OnlyNuls(old(buf[..]), buf[..], line + |token|)
  {
    var hash := StrChr(buf, line, '#', token);
    if hash != -1 {
      CutAt(buf[..], line, token, hash - line);
      buf[hash] := NUL;
      assert buf[..] == old(buf[..])[hash := NUL];
    } else {
      assert token[..Find(token, '#', 0)] == token;
    }
  }

  lemma NulsCompose(a: seq<char>, b: seq<char>, c: seq<char>, y: int, z: int)
    requires OnlyNuls(a, b, y) && OnlyNuls(b, c, z)
    ensures OnlyNuls(a, c, Max(y, z))
  {
  }

  /** The key and the value of a trimmed line whose first '=' is at `k`, each trimmed in place. */
  method CutSetting(buf: array<char>, line: nat, ghost core: string, eq: nat) returns (key: nat, value: nat)
    requires 1 <= line && CStr(buf[..], line, core) && !IsSpace(buf[0])
    requires line <= eq < line + |core|
    modifies buf
    ensures CStr(buf[..], key, Trim(core[..eq - line]))
    ensures CStr(buf[..], value, Trim(core[eq - line + 1..]))
    ensures OnlyNuls(old(buf[..]), buf[..], line + |core|)
  {
    ghost var left, right := core[..eq - line], core[eq - line + 1..];
    CutAt(buf[..], line, core, eq - line);
    buf[eq] := NUL;
    ghost var b1 := buf[..];
    assert b1 == old(buf[..])[eq := NUL];
    key := TrimInPlace(buf, line, left);
    ghost var b2 := buf[..];
    StringBehindNuls(b1, b2, eq, eq + 1, right);
    assert buf[eq] == NUL;
    value := TrimInPlace(buf, eq + 1, right);
    StringInPrefix(b2, buf[..], eq + 1, key, Trim(left));
    NulsCompose(old(buf[..]), b1, b2, eq, eq);
    NulsCompose(old(buf[..]), b2, buf[..], eq, line + |core|);
  }

  lemma StringInPrefix(before: seq<char>, after: seq<char>, p: nat, q: int, s: string)
    requires SamePrefix(before, after, p) && CStr(before, q, s) && q + |s| < p
    ensures CStr(after, q, s)
  {
  }

  /** NULs written in front of a string do not touch it. */
  lemma StringBehindNuls(before: seq<char>, after: seq<char>, z: int, p: int, s: string)
    requires OnlyNuls(before, after, z) && z < p && CStr(before, p, s)
    ensures CStr(after, p, s)
  {
  }

  /** Comment cut and line trimmed, in place. */
  method CleanLine(buf: array<char>, token: nat, ghost text: string) returns (line: nat)
    requires 1 <= token && CStr(buf[..], token, text) && !IsSpace(buf[0])
    modifies buf
    ensures var core := Trim(text[..Find(text, '#', 0)]);
            token <= line && line + |core| <= token + |text| && CStr(buf[..], line, core)
    ensures OnlyNuls(old(buf[..]), buf[..], token + |text|)
  {
    ghost var body := text[..Find(text, '#', 0)];
    CutComment(buf, token, text);
    ghost var b1 := buf[..];
    line := TrimInPlace(buf, token, body);
    NulsCompose(old(buf[..]), b1, buf[..], token + |text|, token + |body|);
  }

  /** A trimmed line split at its first '=': 0 with key and value, 1 for a blank line, or the
      error code. */
  method SplitInPlace(buf: array<char>, line: nat, ghost core: string) returns (r: int, key: nat, value: nat)
    requires 1 <= line && CStr(buf[..], line, core) && !IsSpace(buf[0])
    modifies buf
    ensures OnlyNuls(old(buf[..]), buf[..], line + |core|)
    ensures r == match SplitLine(core) case Blank => 1 case Malformed => ERROR_INVALID_DATA case Setting(_, _) => 0
    ensures r == 0 ==> CStr(buf[..], key, SplitLine(core).key) && CStr(buf[..], value, SplitLine(core).value)
  {
    key, value := 0, 0;
    if buf[line] == NUL {
      assert core == "" by {
        CharsOf(buf, line, core);
      }
      return 1, 0, 0;
    }
    var eq := StrChr(buf, line, '=', core);
    if eq == -1 {
      return ERROR_INVALID_DATA, 0, 0;
    }
    r := 0;
    key, value := CutSetting(buf, line, core, eq);
  }

  // ---------- av_strtok ----------

  /** From position `pos` of the text on, the buffer still holds it. */
  ghost predicate Unread(buf: seq<char>, text: string, pos: nat) {
    && pos <= |text| && |text| + 1 < |buf|
    && (forall i {:trigger text[i]} :: pos <= i < |text| ==> buf[i + 1] == text[i] && text[i] != NUL)
    && buf[|text| + 1] == NUL
    && !IsSpace(buf[0])
  }

  // strspn over line ends
  method SkipLineEnds(buf: array<char>, from: nat, ghost text: string, ghost pos: nat) returns (s: nat)
    requires Unread(buf[..], text, pos) && from == pos + 1
    ensures s == SkipEol(text, pos) + 1
  {
    UnreadChars(buf, text, pos);
    s := from;
    while IsEol(buf[s])
      invariant from <= s <= |text| + 1
      invariant forall j :: pos <= j < s - 1 ==> IsEol(text[j])
      decreases |text| + 1 - s
    {
      s := s + 1;
    }
  }

  // strcspn over line ends
  method SkipLine(buf: array<char>, from: nat, ghost text: string, ghost pos: nat) returns (s: nat)
    requires Unread(buf[..], text, pos) && pos < |text| && !IsEol(text[pos]) && from == pos + 1
    ensures s == LineEnd(text, pos) + 1
  {
    UnreadChars(buf, text, pos);
    s := from + 1;
    while buf[s] != NUL && !IsEol(buf[s])
      invariant from < s <= |text| + 1
      invariant forall j :: pos <= j < s - 1 ==> !IsEol(text[j])
      decreases |text| + 1 - s
    {
      s := s + 1;
    }
  }

  /** Ending the line at `b` makes it a C string and leaves the text behind it unread. */
  lemma LineIsString(buf: seq<char>, text: string, a: nat, b: nat)
    requires Unread(buf, text, a) && a <= b < |text|
    ensures CStr(buf[b + 1 := NUL], a + 1, text[a..b]) && Unread(buf[b + 1 := NUL], text, b + 1)
  {
  }

  lemma LastLineIsString(buf: seq<char>, text: string, a: nat)
    requires Unread(buf, text, a)
    ensures CStr(buf, a + 1, text[a..|text|]) && Unread(buf, text, |text|)
  {
  }

  lemma UnreadLater(buf: seq<char>, text: string, pos: nat, a: nat)
    requires Unread(buf, text, pos) && pos <= a <= |text|
    ensures Unread(buf, text, a)
  {
  }

  /** The second half of av_strtok: ends the line at position `a` of the text. */
  method TakeLine(buf: array<char>, token: nat, ghost text: string, ghost a: nat)
    returns (state: nat, ghost next: nat)
    requires Unread(buf[..], text, a) && a < |text| && !IsEol(text[a]) && token == a + 1
    modifies buf
    ensures Unread(buf[..], text, next) && (if state == 0 then next == |text| else state == next + 1)
    ensures var b := LineEnd(text, a);
            && CStr(buf[..], token, text[a..b])
            && (state == 0 <==> b == |text|)
            && next == if b < |text| then b + 1 else b
  {
    var s := SkipLine(buf, token, text, a);
    ghost var b := s - 1;
    UnreadLater(buf[..], text, a, b);
    EndOfText(buf, text, b);
    if buf[s] != NUL {
      LineIsString(buf[..], text, a, b);
      ghost var before := buf[..];
      buf[s] := NUL;
      assert buf[..] == before[b + 1 := NUL];
      state, next := s + 1, b + 1;
    } else {
      LastLineIsString(buf[..], text, a);
      state, next := 0, b;
    }
  }

  /** av_strtok(.., "\n\r", ..): the next line, NUL-terminated in place; `state` is the position to
      go on from, 0 standing for NULL. Nothing from `next` on has been written to. */
  method StrTok(buf: array<char>, from: nat, ghost text: string, ghost pos: nat)
    returns (token: nat, state: nat, ghost next: nat, ghost line: string)
    requires Unread(buf[..], text, pos) && (if from == 0 then pos == |text| else from == pos + 1)
    modifies buf
    ensures Unread(buf[..], text, next) && (if state == 0 then next == |text| else state == next + 1)
    ensures token == 0 ==> Lines(text, pos) == [] && next == |text|
    ensures token != 0 ==>
              && CStr(buf[..], token, line) && token + |line| <= next + 1
              && (state != 0 ==> token + |line| <= next)
              && pos < next && Lines(text, pos) == [line] + Lines(text, next)
  {
    token, state, next, line := 0, 0, |text|, "";
    UnreadLater(buf[..], text, pos, |text|);
    if from == 0 {
      return;
    }
    var s := SkipLineEnds(buf, from, text, pos);
    ghost var a := s - 1;
    UnreadLater(buf[..], text, pos, a);
    EndOfText(buf, text, a);
    if buf[s] == NUL {
      return;
    }
    token := s;
    ghost var b := LineEnd(text, a);
    line := text[a..b];
    state, next := TakeLine(buf, token, text, a);
    NextLine(text, pos, a, b, line, next);
  }

  lemma EndOfText(buf: array<char>, text: string, a: nat)
    requires Unread(buf[..], text, a)
    ensures buf[a + 1] == NUL <==> a == |text|
  {
    if a < |text| {
      assert text[a] != NUL;
    }
  }

  lemma UnreadChars(buf: array<char>, text: string, pos: nat)
    requires Unread(buf[..], text, pos)
    ensures forall j {:trigger buf[j]} :: pos + 1 <= j <= |text| ==> buf[j] == text[j - 1] != NUL
  {
  }

  lemma NextLine(text: string, pos: nat, a: nat, b: nat, line: string, next: nat)
    requires pos <= |text| && a == SkipEol(text, pos) < |text| && b == LineEnd(text, a)
    requires line == text[a..b] && next == if b < |text| then b + 1 else b
    ensures pos < b && Lines(text, pos) == [line] + Lines(text, next)
  {
    if b < |text| {
      LinesAfterEol(text, b);
    }
  }

  lemma LinesAfterEol(text: string, b: nat)
    requires b < |text| && IsEol(text[b])
    ensures Lines(text, b) == Lines(text, b + 1)
  {
    assert SkipEol(text, b) == SkipEol(text, b + 1);
  }

  // ---------- configParse ----------

  /** The options that hold no memory, which is all that freeing them leaves. */
  function Freed(options: map<string, string>, inMemory: set<string>): map<string, string> {
    map key | key in options && key !in inMemory :: options[key]
  }

  /** The options, with av_opt_set as a function that says which settings are acceptable. */
  class Config {
    const optSet: (string, string) -> int
    // the options whose value is a string
    const inMemory: set<string>
    var options: map<string, string>

    constructor (optSet: (string, string) -> int, inMemory: set<string>, defaults: map<string, string>)
      ensures this.optSet == optSet && this.inMemory == inMemory && options == defaults
    {
      this.optSet := optSet;
      this.inMemory := inMemory;
      options := defaults;
    }

    // rsConfigExit
    method Exit()
      modifies this
      ensures options == Freed(old(options), inMemory)
    {
      options := map key | key in options && key !in inMemory :: options[key];
    }

    method Set(key: string, value: string) returns (ret: int)
      modifies this
      ensures ret == optSet(key, value)
      ensures options == if ret < 0 then old(options) else old(options)[key := value]
    {
      ret := optSet(key, value);
      if ret >= 0 {
        options := options[key := value];
      }
    }
  }

  /** The outcome of one line. */
  ghost predicate LineDone(config: Config, parsed: Line, before: map<string, string>, ret: int)
    reads config
  {
    match parsed
    case Blank => ret == 0 && config.options == before
    case Malformed => ret == ERROR_INVALID_DATA && config.options == before
    case Setting(key, value) =>
      var r := config.optSet(key, value);
      if r < 0 then ret == r && config.options == before
      else ret == 0 && config.options == before[key := value]
  }

  /** The body of the token loop. */
  method HandleLine(buf: array<char>, token: nat, ghost line: string, config: Config) returns (ret: int)
    requires 1 <= token && CStr(buf[..], token, line) && !IsSpace(buf[0])
    modifies buf, config
    ensures OnlyNuls(old(buf[..]), buf[..], token + |line|)
    ensures LineDone(config, ParseLine(line), old(config.options), ret)
  {
    ghost var core := Trim(line[..Find(line, '#', 0)]);
    var start := CleanLine(buf, token, line);
    ghost var b1 := buf[..];
    var r, key, value := SplitInPlace(buf, start, core);
    NulsCompose(old(buf[..]), b1, buf[..], token + |line|, start + |core|);
    if r > 0 {
      return 0;
    }
    if r < 0 {
      return r;
    }
    var k := ReadCStr(buf, key, SplitLine(core).key);
    var v := ReadCStr(buf, value, SplitLine(core).value);
    ret := config.Set(k, v);
    if ret >= 0 {
      ret := 0;
    }
  }

  lemma NulsKeepUnread(before: seq<char>, after: seq<char>, z: int, text: string, pos: nat)
    requires OnlyNuls(before, after, z) && Unread(before, text, pos)
    requires z <= pos || (pos == |text| && z <= pos + 1)
    ensures Unread(after, text, pos)
  {
  }

  /** What the parse of a line that comes to `parsed` and of the rest, `p`, amounts to. */
  ghost predicate Prefixed(parsed: Line, optSet: (string, string) -> int, o: Outcome, p: Outcome) {
    match parsed
    case Blank => o == p
    case Malformed => o == Outcome([], ERROR_INVALID_DATA)
    case Setting(key, value) =>
      if optSet(key, value) < 0 then o == Outcome([], optSet(key, value))
      else o == Outcome([(key, value)] + p.settings, p.ret)
  }

  lemma ParseStep(line: string, rest: seq<string>, optSet: (string, string) -> int)
    ensures Prefixed(ParseLine(line), optSet, Parse([line] + rest, optSet), Parse(rest, optSet))
  {
    assert ([line] + rest)[1..] == rest;
  }

  /** The settings and the code after a line that comes to `parsed`. */
  ghost predicate Handled(parsed: Line, optSet: (string, string) -> int, ret: int, done: seq<(string, string)>,
                          done': seq<(string, string)>) {
    match parsed
    case Blank => ret == 0 && done' == done
    case Malformed => ret == ERROR_INVALID_DATA && done' == done
    case Setting(key, value) =>
      if optSet(key, value) < 0 then ret == optSet(key, value) && done' == done
      else ret == 0 && done' == done + [(key, value)]
  }

  /** What is done so far followed by what the remaining lines call for is the whole. */
  ghost predicate Remaining(done: seq<(string, string)>, lines: seq<string>, optSet: (string, string) -> int,
                            whole: Outcome) {
    whole == Then(done, Parse(lines, optSet))
  }

  lemma HandledThen(parsed: Line, optSet: (string, string) -> int, o: Outcome, p: Outcome, ret: int,
                    done: seq<(string, string)>, done': seq<(string, string)>)
    requires Prefixed(parsed, optSet, o, p) && Handled(parsed, optSet, ret, done, done')
    ensures ret < 0 ==> Then(done, o) == Outcome(done', ret)
    ensures ret >= 0 ==> Then(done, o) == Then(done', p)
  {
    if parsed.Setting? && ret >= 0 {
      var first := [(parsed.key, parsed.value)];
      assert done + (first + p.settings) == done + first + p.settings;
    }
  }

  lemma ApplyOne(options: map<string, string>, done: seq<(string, string)>, key: string, value: string)
    ensures Apply(options, done + [(key, value)]) == Apply(options, done)[key := value]
  {
    ApplyAppend(options, done, [(key, value)]);
    assert Apply(Apply(options, done), [(key, value)]) == Apply(options, done)[key := value];
  }

  /** The settings after a line that comes to `parsed`. */
  function DoneAfter(done: seq<(string, string)>, parsed: Line, optSet: (string, string) -> int): seq<(string, string)> {
    if parsed.Setting? && optSet(parsed.key, parsed.value) >= 0 then done + [(parsed.key, parsed.value)] else done
  }

  /** What the options are after it. */
  lemma OptionsAfter(start: map<string, string>, done: seq<(string, string)>, parsed: Line, config: Config,
                     before: map<string, string>, ret: int)
    requires before == Apply(start, done) && LineDone(config, parsed, before, ret)
    ensures var done' := DoneAfter(done, parsed, config.optSet);
            config.options == Apply(start, done') && Handled(parsed, config.optSet, ret, done, done')
  {
    if parsed.Setting? {
      ApplyOne(start, done, parsed.key, parsed.value);
    }
  }

  /** What handling the first of the remaining lines leaves. */
  lemma LineProgress(start: map<string, string>, done: seq<(string, string)>, line: string, rest: seq<string>,
                     config: Config, before: map<string, string>, whole: Outcome, ret: int)
    requires before == Apply(start, done) && LineDone(config, ParseLine(line), before, ret)
    requires Remaining(done, [line] + rest, config.optSet, whole)
    ensures var done' := DoneAfter(done, ParseLine(line), config.optSet);
            && config.options == Apply(start, done')
            && (ret < 0 ==> whole == Outcome(done', ret))
            && (ret >= 0 ==> Remaining(done', rest, config.optSet, whole))
  {
    var parsed, optSet := ParseLine(line), config.optSet;
    OptionsAfter(start, done, parsed, config, before, ret);
    ParseStep(line, rest, optSet);
    HandledThen(parsed, optSet, Parse([line] + rest, optSet), Parse(rest, optSet), ret, done,
                DoneAfter(done, parsed, optSet));
  }

  /** The tokeniser between two lines: the text is unread from `pos` on, `line` is ready. */
  ghost predicate AtLine(buf: seq<char>, text: string, token: nat, state: nat, pos: nat, line: string) {
    && Unread(buf, text, pos) && (if state == 0 then pos == |text| else state == pos + 1)
    && (token != 0 ==>
          && CStr(buf, token, line) && token + |line| <= pos + 1
          && (state != 0 ==> token + |line| <= pos))
  }

  function LinesLeft(text: string, token: nat, pos: nat, line: string): seq<string>
    requires pos <= |text|
  {
    if token == 0 then [] else [line] + Lines(text, pos)
  }

  method NextToken(buf: array<char>, state: nat, ghost text: string, ghost pos: nat)
    returns (token: nat, state': nat, ghost next: nat, ghost line: string)
    requires Unread(buf[..], text, pos) && (if state == 0 then pos == |text| else state == pos + 1)
    modifies buf
    ensures AtLine(buf[..], text, token, state', next, line)
    ensures LinesLeft(text, token, next, line) == Lines(text, pos)
    ensures pos <= next && (token != 0 ==> pos < next)
  {
    token, state', next, line := StrTok(buf, state, text, pos);
  }

  /** The options are those of the settings done so far, and the remaining lines give the rest. */
  ghost predicate Progress(config: Config, start: map<string, string>, done: seq<(string, string)>,
                           lines: seq<string>, whole: Outcome)
    reads config
  {
    && config.options == Apply(start, done)
    && Remaining(done, lines, config.optSet, whole)
  }

  /** One line handled, with the text behind it left unread. */
  method OneLine(buf: array<char>, config: Config, token: nat, ghost text: string, ghost state: nat, ghost pos: nat,
                 ghost line: string, ghost start: map<string, string>, ghost done: seq<(string, string)>,
                 ghost whole: Outcome) returns (ret: int, ghost done': seq<(string, string)>)
    requires token != 0 && AtLine(buf[..], text, token, state, pos, line)
    requires Progress(config, start, done, [line] + Lines(text, pos), whole)
    modifies buf, config
    ensures Unread(buf[..], text, pos)
    ensures ret < 0 ==> whole.ret == ret && config.options == Apply(start, whole.settings)
    ensures ret >= 0 ==> Progress(config, start, done', Lines(text, pos), whole)
  {
    ghost var chars, options := buf[..], config.options;
    ret := HandleLine(buf, token, line, config);
    LineProgress(start, done, line, Lines(text, pos), config, options, whole, ret);
    NulsKeepUnread(chars, buf[..], token + |line|, text, pos);
    done' := DoneAfter(done, ParseLine(line), config.optSet);
  }

  lemma NothingLeft(config: Config, start: map<string, string>, done: seq<(string, string)>, whole: Outcome)
    requires Progress(config, start, done, [], whole)
    ensures whole.ret == 0 && config.options == Apply(start, whole.settings)
  {
    assert done + [] == done;
  }

  /** The token loop of configParse. */
  method ParseLoop(buf: array<char>, config: Config, ghost text: string, ghost whole: Outcome) returns (ret: int)
    requires Unread(buf[..], text, 0)
    requires Progress(config, config.options, [], Lines(text, 0), whole)
    modifies buf, config
    ensures ret == whole.ret && config.options == Apply(old(config.options), whole.settings)
  {
    ghost var start, done := config.options, [];
    ghost var pos: nat, line: string;
    var token: nat, state: nat;
    token, state, pos, line := NextToken(buf, 1, text, 0);
    while token != 0
      invariant AtLine(buf[..], text, token, state, pos, line)
      invariant Progress(config, start, done, LinesLeft(text, token, pos, line), whole)
      decreases |text| - pos, token != 0
    {
      ret, done := OneLine(buf, config, token, text, state, pos, line, start, done, whole);
      if ret < 0 {
        return;
      }
      token, state, pos, line := NextToken(buf, state, text, pos);
    }
    NothingLeft(config, start, done, whole);
    ret := 0;
  }

  /** configParse on a file's content: in place, it makes exactly the settings of the pure parse,
      in order, and stops with its error, which frees the options. */
  method ParseContents(buf: array<char>, config: Config, ghost text: string) returns (ret: int)
    requires CStr(buf[..], 1, text) && !IsSpace(buf[0])
    modifies buf, config
    ensures ret == ParseText(text, config.optSet).ret
    ensures var made := Apply(old(config.options), ParseText(text, config.optSet).settings);
            config.options == if ret < 0 then Freed(made, config.inMemory) else made
  {
    StartUnread(buf[..], text);
    ret := ParseLoop(buf, config, text, ParseText(text, config.optSet));
    if ret < 0 {
      config.Exit();
    }
  }

  lemma StartUnread(buf: seq<char>, text: string)
    requires CStr(buf, 1, text) && !IsSpace(buf[0])
    ensures Unread(buf, text, 0)
  {
  }

  /** What a file comes to: one that cannot be opened nothing, one that cannot be read its error. */
  ghost function FileOutcome(found: bool, readError: int, text: string, optSet: (string, string) -> int): Outcome {
    if !found then Outcome([], 0) else if readError < 0 then Outcome([], readError) else ParseText(text, optSet)
  }

  /** What the options are after a file, and what the call returns when that fails. */
  ghost predicate FileDone(o: Outcome, before: map<string, string>, after: map<string, string>,
                           inMemory: set<string>, ret: int) {
    && (ret < 0 <==> o.ret < 0) && (ret < 0 ==> ret == o.ret)
    && after == if o.ret < 0 then Freed(Apply(before, o.settings), inMemory) else Apply(before, o.settings)
  }

  /** configParse: a file that cannot be opened (null here) is skipped; `readError` is negative when
      it cannot be read to its end. */
  method ParseFile(file: array?<char>, readError: int, config: Config, ghost text: string) returns (ret: int)
    requires file != null ==> CStr(file[..], 1, text) && !IsSpace(file[0])
    modifies config
    modifies if file == null then {} else {file}
    ensures file == null ==> ret >= 0 && config.options == old(config.options)
    ensures file != null && readError < 0 ==>
              ret == readError && config.options == Freed(old(config.options), config.inMemory)
    ensures file != null && readError >= 0 ==>
              && ret == ParseText(text, config.optSet).ret
              && var made := Apply(old(config.options), ParseText(text, config.optSet).settings);
                 config.options == if ret < 0 then Freed(made, config.inMemory) else made
    ensures FileDone(FileOutcome(file != null, readError, text, config.optSet), old(config.options), config.options,
                     config.inMemory, ret)
  {
    if file == null {
      return 0;
    }
    if readError < 0 {
      config.Exit();
      return readError;
    }
    ret := ParseContents(file, config, text);
  }

  /** The outcome of both files, the global one `g` and the local one `l`. */
  ghost predicate InitDone(g: Outcome, home: bool, memory: bool, l: Outcome, before: map<string, string>,
                           after: map<string, string>, inMemory: set<string>, ret: int) {
    if g.ret < 0 then ret == g.ret && after == Freed(Apply(before, g.settings), inMemory)
    else if !home then ret == ERROR_EXTERNAL && after == Apply(before, g.settings)
    else if !memory then ret == ERROR_NO_MEMORY && after == Apply(before, g.settings)
    else if l.ret < 0 then ret == l.ret && after == Freed(Apply(before, g.settings + l.settings), inMemory)
    else ret == 0 && after == Apply(before, g.settings + l.settings)
  }

  /** rsConfigInit: the global file, then the local one, whose name needs the home directory and
      memory. The first of these to fail gives the return value, and what was set until then stays
      unless a file failed; when none does, the local settings override the global ones. */
  method ConfigInit(config: Config, global: array?<char>, globalError: int, home: bool, memory: bool,
                    local: array?<char>, localError: int,
                    ghost globalText: string, ghost localText: string) returns (ret: int)
    requires global != null ==> CStr(global[..], 1, globalText) && !IsSpace(global[0])
    requires local != null ==> CStr(local[..], 1, localText) && !IsSpace(local[0])
    requires global != null && local != null ==> global != local
    modifies config
    modifies if global == null then {} else {global}
    modifies if local == null then {} else {local}
    ensures InitDone(FileOutcome(global != null, globalError, globalText, config.optSet), home, memory,
                     FileOutcome(local != null, localError, localText, config.optSet),
                     old(config.options), config.options, config.inMemory, ret)
    ensures var g := FileOutcome(global != null, globalError, globalText, config.optSet);
            var l := FileOutcome(local != null, localError, localText, config.optSet);
            && (ret == 0 <==> g.ret >= 0 && home && memory && l.ret >= 0)
            && (ret == 0 ==> config.options == Apply(old(config.options), g.settings + l.settings))
  {
    ghost var g, start := FileOutcome(global != null, globalError, globalText, config.optSet), config.options;
    ghost var l := FileOutcome(local != null, localError, localText, config.optSet);
    ret := ParseFile(global, globalError, config, globalText);
    if ret < 0 {
      return;
    }
    if !home {
      return ERROR_EXTERNAL;
    }
    if !memory {
      return ERROR_NO_MEMORY;
    }
    ret := ParseFile(local, localError, config, localText);
    ApplyAppend(start, g.settings, l.settings);
    if ret < 0 {
      return;
    }
    ret := 0;
  }
}
