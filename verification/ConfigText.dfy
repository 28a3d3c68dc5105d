// The configuration format as a pure function of the text: one `key = value` a line, comments
// from the first '#' on, blank lines ignored.

module ConfigText {
  import opened CLib

  // av_isspace
  predicate IsSpace(c: char) {
    c == ' ' || c == '\U{0C}' || c == '\n' || c == '\r' || c == '\t' || c == '\U{0B}'
  }

  predicate IsEol(c: char) {
    c == '\n' || c == '\r'
  }

  /** The first position from `i` on that is not white space, or the length. */
  function SkipSpace(s: string, i: nat): (r: nat)
    requires i <= |s|
    ensures i <= r <= |s|
    ensures r < |s| ==> !IsSpace(s[r])
    ensures forall j :: i <= j < r ==> IsSpace(s[j])
    decreases |s| - i
  {
    if i < |s| && IsSpace(s[i]) then SkipSpace(s, i + 1) else i
  }

  /** The end of `s[..n]` without the white space at its end. */
  function DropSpace(s: string, n: nat): (r: nat)
    requires n <= |s|
    ensures r <= n
    ensures r > 0 ==> !IsSpace(s[r - 1])
    ensures forall j :: r <= j < n ==> IsSpace(s[j])
  {
    if n > 0 && IsSpace(s[n - 1]) then DropSpace(s, n - 1) else n
  }

  function Trim(s: string): string {
    var a, b := SkipSpace(s, 0), DropSpace(s, |s|);
    if a < b then s[a..b] else ""
  }

  /** Position of the first `c` from `i` on, or the length. */
  function Find(s: string, c: char, i: nat): (r: nat)
    requires i <= |s|
    ensures i <= r <= |s|
    ensures r < |s| ==> s[r] == c
    ensures forall j :: i <= j < r ==> s[j] != c
    decreases |s| - i
  {
    if i < |s| && s[i] != c then Find(s, c, i + 1) else i
  }

  /** The first position from `i` on that does not end a line, or the length. */
  function SkipEol(s: string, i: nat): (r: nat)
    requires i <= |s|
    ensures i <= r <= |s|
    ensures r < |s| ==> !IsEol(s[r])
    ensures forall j :: i <= j < r ==> IsEol(s[j])
    decreases |s| - i
  {
    if i < |s| && IsEol(s[i]) then SkipEol(s, i + 1) else i
  }

  /** The end of the line that position `i` is in. */
  function LineEnd(s: string, i: nat): (r: nat)
    requires i <= |s|
    ensures i <= r <= |s|
    ensures r < |s| ==> IsEol(s[r])
    ensures forall j :: i <= j < r ==> !IsEol(s[j])
    decreases |s| - i
  {
    if i < |s| && !IsEol(s[i]) then LineEnd(s, i + 1) else i
  }

  /** The non-empty lines from position `i` on, without their ends. */
  function Lines(s: string, i: nat): seq<string>
    requires i <= |s|
    decreases |s| - i
  {
    var a := SkipEol(s, i);
    if a == |s| then []
    else var b := LineEnd(s, a); assert b > a; [s[a..b]] + Lines(s, b)
  }

  datatype Line = Blank | Malformed | Setting(key: string, value: string)

  function ParseLine(text: string): Line {
    SplitLine(Trim(text[..Find(text, '#', 0)]))
  }

  function SplitLine(line: string): Line {
    var eq := Find(line, '=', 0);
    if line == "" then Blank
    else if eq == |line| then Malformed
    else Setting(Trim(line[..eq]), Trim(line[eq + 1..]))
  }

  /** The settings made, in order, until the first error, and that error or 0. */
  datatype Outcome = Outcome(settings: seq<(string, string)>, ret: int)

  /** `optSet` is av_opt_set: negative for an unknown key or an unacceptable value. */
  function Parse(lines: seq<string>, optSet: (string, string) -> int): Outcome {
    if lines == [] then Outcome([], 0)
    else
      match ParseLine(lines[0])
      case Blank => Parse(lines[1..], optSet)
      case Malformed => Outcome([], ERROR_INVALID_DATA)
      case Setting(key, value) =>
        if optSet(key, value) < 0 then Outcome([], optSet(key, value))
        else
          var rest := Parse(lines[1..], optSet);
          Outcome([(key, value)] + rest.settings, rest.ret)
  }

  /** An outcome behind settings already made. */
  function Then(done: seq<(string, string)>, p: Outcome): Outcome {
    Outcome(done + p.settings, p.ret)
  }

  function ParseText(text: string, optSet: (string, string) -> int): Outcome {
    Parse(Lines(text, 0), optSet)
  }

  /** The options after a sequence of settings. */
  function Apply(options: map<string, string>, settings: seq<(string, string)>): map<string, string>
    decreases |settings|
  {
    if settings == [] then options
    else Apply(options[settings[0].0 := settings[0].1], settings[1..])
  }

  lemma {:induction false} ApplyAppend(options: map<string, string>, a: seq<(string, string)>, b: seq<(string, string)>)
    ensures Apply(options, a + b) == Apply(Apply(options, a), b)
    decreases |a|
  {
    if a == [] {
      assert a + b == b;
    } else {
      assert (a + b)[1..] == a[1..] + b;
      ApplyAppend(options[a[0].0 := a[0].1], a[1..], b);
    }
  }

  /** The last assignment of a key wins; a key never assigned keeps what it had. */
  lemma {:induction false} LastAssignmentWins(options: map<string, string>, settings: seq<(string, string)>, i: nat)
    requires i < |settings|
    requires forall j :: i < j < |settings| ==> settings[j].0 != settings[i].0
    ensures settings[i].0 in Apply(options, settings)
    ensures Apply(options, settings)[settings[i].0] == settings[i].1
    decreases |settings|
  {
    if i == 0 {
      UnassignedKeyStays(options[settings[0].0 := settings[0].1], settings[1..], settings[0].0);
    } else {
      LastAssignmentWins(options[settings[0].0 := settings[0].1], settings[1..], i - 1);
    }
  }

  lemma {:induction false} UnassignedKeyStays(options: map<string, string>, settings: seq<(string, string)>, key: string)
    requires forall j :: 0 <= j < |settings| ==> settings[j].0 != key
    ensures key in Apply(options, settings) <==> key in options
    ensures key in options ==> Apply(options, settings)[key] == options[key]
    decreases |settings|
  {
    if settings != [] {
      UnassignedKeyStays(options[settings[0].0 := settings[0].1], settings[1..], key);
    }
  }

  // ---------- trimming ----------

  predicate AllSpace(s: string) {
    forall i :: 0 <= i < |s| ==> IsSpace(s[i])
  }

  predicate Trimmed(s: string) {
    s == "" || (!IsSpace(s[0]) && !IsSpace(s[|s| - 1]))
  }

  lemma NotSpaceAt(s: string, a: nat, b: nat, k: nat)
    requires a <= b <= |s| && AllSpace(s[..a]) && AllSpace(s[b..])
    requires k < |s| && !IsSpace(s[k])
    ensures a <= k < b
  {
    assert s == s[..a] + s[a..b] + s[b..];
  }

  /** Trimming takes exactly the white space around. */
  lemma {:induction false} TrimIs(s: string, a: nat, b: nat)
    requires a <= b <= |s| && Trimmed(s[a..b])
    requires AllSpace(s[..a]) && AllSpace(s[b..])
    ensures Trim(s) == s[a..b]
  {
    var i, j := SkipSpace(s, 0), DropSpace(s, |s|);
    if a < b {
      assert s[a..b][0] == s[a] && s[a..b][b - a - 1] == s[b - 1];
      NotSpaceAt(s, a, b, i);
      NotSpaceAt(s, a, b, j - 1);
    } else if i < |s| {
      NotSpaceAt(s, a, b, i);
    }
  }

  /** `t` is `s` without the white space around it. */
  ghost predicate IsTrimOf(t: string, s: string) {
    && Trimmed(t)
    && exists a: nat, b: nat :: a <= b <= |s| && t == s[a..b] && AllSpace(s[..a]) && AllSpace(s[b..])
  }

  /** What trimming returns when `s` is not blank is not empty and stands between these. */
  lemma {:induction false} TrimParts(s: string)
    ensures var a, b := SkipSpace(s, 0), DropSpace(s, |s|);
            && AllSpace(s[..a]) && AllSpace(s[b..])
            && (if AllSpace(s) then a == |s| && b == 0 && Trim(s) == "" else a < b && Trim(s) == s[a..b] != "")
  {
    var a, b := SkipSpace(s, 0), DropSpace(s, |s|);
    assert a < |s| ==> !IsSpace(s[a]);
  }

  lemma {:induction false} TrimIsTrimOf(s: string)
    ensures IsTrimOf(Trim(s), s) && (Trim(s) == "" <==> AllSpace(s))
  {
    var a, b := SkipSpace(s, 0), DropSpace(s, |s|);
    TrimParts(s);
    if AllSpace(s) {
      assert Trim(s) == s[|s|..|s|] && s[..|s|] == s && AllSpace(s[|s|..]);
    }
  }

  ghost predicate NoEol(s: string) {
    forall i :: 0 <= i < |s| ==> !IsEol(s[i])
  }

  ghost predicate Without(s: string, c: char) {
    forall i :: 0 <= i < |s| ==> s[i] != c
  }

  // ---------- what a line means ----------

  lemma SpaceInFront(s: string, i: nat, j: nat)
    requires i <= j <= |s| && AllSpace(s[..i]) && AllSpace(s[i..j])
    ensures AllSpace(s[..j])
  {
    assert s[..j] == s[..i] + s[i..j];
  }

  lemma SpaceBehind(s: string, i: nat, j: nat)
    requires i <= j <= |s| && AllSpace(s[i..j]) && AllSpace(s[j..])
    ensures AllSpace(s[i..])
  {
    assert s[i..] == s[i..j] + s[j..];
  }

  lemma {:induction false} TrimBlank(s: string)
    requires AllSpace(s)
    ensures Trim(s) == ""
  {
    TrimParts(s);
  }

  lemma {:induction false} TrimInsideText(s: string, a: nat, b: nat, p: nat, q: nat)
    requires a + p <= a + q <= b <= |s| && Trimmed(s[a + p..a + q])
    requires AllSpace(s[..a]) && AllSpace(s[a..a + p]) && AllSpace(s[a + q..b]) && AllSpace(s[b..])
    ensures Trim(s) == s[a + p..a + q]
  {
    SpaceInFront(s, a, a + p);
    SpaceBehind(s, a + q, b);
    TrimIs(s, a + p, a + q);
  }

  lemma SliceOfSlice(s: string, a: nat, b: nat, p: nat, q: nat)
    requires a <= b <= |s| && p <= q <= b - a
    ensures s[a..b][p..q] == s[a + p..a + q]
  {
    assert forall k :: 0 <= k < q - p ==> s[a..b][p..q][k] == s[a + p..a + q][k];
  }

  /** White space in front or behind does not change what trimming returns. */
  lemma {:induction false} TrimInside(s: string, a: nat, b: nat)
    requires a <= b <= |s| && AllSpace(s[..a]) && AllSpace(s[b..])
    ensures Trim(s) == Trim(s[a..b])
  {
    var m := s[a..b];
    if AllSpace(m) {
      SpaceInFront(s, a, b);
      assert s == s[..b] + s[b..];
      TrimBlank(m);
      TrimBlank(s);
      assert Trim(s) == "" == Trim(s[a..b]);
    } else {
      var p, q := SkipSpace(m, 0), DropSpace(m, |m|);
      TrimParts(m);
      SliceOfSlice(s, a, b, p, q);
      SliceOfSlice(s, a, b, 0, p);
      SliceOfSlice(s, a, b, q, b - a);
      assert m[..p] == m[0..p] && m[q..] == m[q..b - a];
      TrimInsideText(s, a, b, p, q);
      assert Trim(s) == s[a + p..a + q] == Trim(m);
    }
  }

  /** Everything before the first '#' of the line. */
  ghost predicate BeforeComment(text: string, n: nat) {
    n <= |text| && Without(text[..n], '#') && (n < |text| ==> text[n] == '#')
  }

  ghost predicate FirstEquals(body: string, e: nat) {
    e < |body| && body[e] == '=' && Without(body[..e], '=')
  }

  lemma {:induction false} FindEquals(s: string, c: char)
    ensures Find(s, c, 0) == |s| <==> Without(s, c)
  {
  }

  lemma CommentAt(text: string, n: nat)
    requires BeforeComment(text, n)
    ensures Find(text, '#', 0) == n
  {
    assert forall j :: 0 <= j < n ==> text[j] == text[..n][j];
  }

  /** Trimming a body that is not blank keeps its equals signs, shifted by the space in front. */
  lemma {:induction false} EqualsInCore(body: string, e: nat)
    requires FirstEquals(body, e)
    ensures var a := SkipSpace(body, 0);
            && !AllSpace(body) && a <= e < DropSpace(body, |body|)
            && Find(Trim(body), '=', 0) == e - a
  {
    var a, b := SkipSpace(body, 0), DropSpace(body, |body|);
    var core := Trim(body);
    TrimParts(body);
    assert !IsSpace(body[e]) && core[e - a] == '=';
    var left := core[..e - a];
    forall j | 0 <= j < |left|
      ensures left[j] != '='
    {
      assert left[j] == core[j] == body[a + j] == body[..e][a + j];
    }
    FindIs(core, '=', e - a);
  }

  lemma LeftOfCore(body: string, a: nat, b: nat, e: nat)
    requires a <= e < b <= |body| && AllSpace(body[..a])
    ensures Trim(body[a..b][..e - a]) == Trim(body[..e])
  {
    var left := body[..e];
    assert body[a..b][..e - a] == left[a..e] && left[..a] == body[..a];
    TrimInside(left, a, e);
  }

  lemma RightOfCore(body: string, a: nat, b: nat, e: nat)
    requires a <= e < b <= |body| && AllSpace(body[b..])
    ensures Trim(body[a..b][e - a + 1..]) == Trim(body[e + 1..])
  {
    var right := body[e + 1..];
    assert body[a..b][e - a + 1..] == right[0..b - e - 1] && right[b - e - 1..] == body[b..];
    TrimInside(right, 0, b - e - 1);
  }

  /** A setting is split at the first equals sign. */
  lemma {:induction false} SettingMeans(body: string, e: nat)
    requires FirstEquals(body, e)
    ensures SplitLine(Trim(body)) == Setting(Trim(body[..e]), Trim(body[e + 1..]))
  {
    var a, b := SkipSpace(body, 0), DropSpace(body, |body|);
    TrimParts(body);
    EqualsInCore(body, e);
    LeftOfCore(body, a, b, e);
    RightOfCore(body, a, b, e);
  }

  /** Only an equals sign makes a setting. */
  lemma {:induction false} NoSetting(body: string)
    requires Without(body, '=')
    ensures SplitLine(Trim(body)) == if AllSpace(body) then Blank else Malformed
  {
    TrimParts(body);
    var a, b := SkipSpace(body, 0), DropSpace(body, |body|);
    var core := Trim(body);
    forall j | 0 <= j < |core|
      ensures core[j] != '='
    {
      assert core[j] == body[a + j];
    }
    FindEquals(core, '=');
  }

  lemma {:induction false} BodyMeans(body: string)
    ensures var line := SplitLine(Trim(body));
            && (line == Blank <==> AllSpace(body))
            && (line == Malformed <==> !AllSpace(body) && Without(body, '='))
  {
    var e := Find(body, '=', 0);
    FindEquals(body, '=');
    if e == |body| {
      NoSetting(body);
    } else {
      assert FirstEquals(body, e);
      EqualsInCore(body, e);
      SettingMeans(body, e);
    }
  }

  /** What a line means, told by its characters. With nothing but white space before its comment it
      is blank; else without an equals sign there it is an error; else it sets what stands before
      the first equals sign to what stands behind it, both without the white space around. */
  lemma {:induction false} LineMeans(text: string, n: nat)
    requires BeforeComment(text, n)
    ensures ParseLine(text) == Blank <==> AllSpace(text[..n])
    ensures ParseLine(text) == Malformed <==> !AllSpace(text[..n]) && Without(text[..n], '=')
    ensures forall e: nat :: FirstEquals(text[..n], e) ==> Sets(ParseLine(text), text[..n][..e], text[..n][e + 1..])
  {
    var body := text[..n];
    CommentAt(text, n);
    BodyMeans(body);
    forall e: nat | FirstEquals(body, e)
      ensures Sets(ParseLine(text), body[..e], body[e + 1..])
    {
      SettingMeans(body, e);
      TrimIsTrimOf(body[..e]);
      TrimIsTrimOf(body[e + 1..]);
    }
  }

  ghost predicate Sets(line: Line, left: string, right: string) {
    line.Setting? && IsTrimOf(line.key, left) && IsTrimOf(line.value, right)
  }

  // ---------- lines, one character after the other ----------

  /** The lines of a text read character by character, with `line` begun before it. */
  function Tokens(s: string, line: string): seq<string>
    decreases |s|
  {
    if s == "" then (if line == "" then [] else [line])
    else if !IsEol(s[0]) then Tokens(s[1..], line + [s[0]])
    else (if line == "" then [] else [line]) + Tokens(s[1..], "")
  }

  /** Up to the end of its line a token grows. */
  lemma {:induction false} TokenGrows(s: string, i: nat, j: nat)
    requires i <= j <= |s| && NoEol(s[i..j])
    ensures Tokens(s[i..], "") == Tokens(s[j..], s[i..j])
    decreases j
  {
    if i == j {
      assert s[i..j] == "";
    } else {
      var line := s[i..j - 1];
      forall k | 0 <= k < |line|
        ensures !IsEol(line[k])
      {
        assert line[k] == s[i..j][k];
      }
      TokenGrows(s, i, j - 1);
      assert s[j - 1..][0] == s[i..j][j - 1 - i];
      assert s[j - 1..][1..] == s[j..];
      assert s[i..j - 1] + [s[j - 1]] == s[i..j];
    }
  }

  /** av_strtok finds exactly these lines. */
  lemma {:induction false} LinesAreTokens(s: string, i: nat)
    requires i <= |s|
    ensures Lines(s, i) == Tokens(s[i..], "")
    decreases |s| - i
  {
    if i < |s| {
      if IsEol(s[i]) {
        assert s[i..][1..] == s[i + 1..];
        assert SkipEol(s, i) == SkipEol(s, i + 1);
        assert Lines(s, i) == Lines(s, i + 1);
        LinesAreTokens(s, i + 1);
      } else {
        var b := LineEnd(s, i);
        TokenGrows(s, i, b);
        LinesAreTokens(s, b);
        if b < |s| {
          assert s[b..][0] == s[b];
        }
      }
    }
  }

  // ---------- print and parse ----------

  // A line of a configuration file: a setting, a comment, or white space.
  datatype Entry =
    | Entry(key: string, value: string, comment: string)
    | Remark(indent: string, comment: string)
    | Space(indent: string)

  /** Keys and values the format can carry; a value may be empty and may contain '='. */
  ghost predicate Printable(e: Entry) {
    match e
    case Entry(key, value, comment) =>
      && key != "" && Trimmed(key) && NoEol(key) && Without(key, '=') && Without(key, '#')
      && Trimmed(value) && NoEol(value) && Without(value, '#')
      && NoEol(comment)
    case Remark(indent, comment) => AllSpace(indent) && NoEol(indent) && NoEol(comment)
    case Space(indent) => AllSpace(indent) && NoEol(indent)
  }

  function PrintLine(e: Entry): string {
    match e
    case Entry(key, value, comment) => key + " = " + value + " # " + comment
    case Remark(indent, comment) => indent + "#" + comment
    case Space(indent) => indent
  }

  function Print(entries: seq<Entry>): string {
    if entries == [] then "" else PrintLine(entries[0]) + "\n" + Print(entries[1..])
  }

  function Settings(entries: seq<Entry>): seq<(string, string)> {
    if entries == [] then []
    else (if entries[0].Entry? then [(entries[0].key, entries[0].value)] else []) + Settings(entries[1..])
  }

  lemma {:induction false} FindIs(s: string, c: char, i: nat)
    requires i < |s| && s[i] == c && Without(s[..i], c)
    ensures Find(s, c, 0) == i
  {
    forall j | 0 <= j < i
      ensures s[j] != c
    {
      assert s[..i][j] == s[j];
    }
  }

  /** What stands before the comment. */
  lemma {:induction false} PrintedBody(e: Entry)
    requires Printable(e) && e.Entry?
    ensures var s := PrintLine(e);
            s[..Find(s, '#', 0)] == e.key + " = " + e.value + " "
  {
    var body := e.key + " = " + e.value + " ";
    assert PrintLine(e) == body + ("# " + e.comment);
    assert PrintLine(e)[..|body|] == body;
    FindIs(PrintLine(e), '#', |body|);
  }

  lemma {:induction false} TrimPadded(front: string, s: string, back: string)
    requires Trimmed(s) && AllSpace(front) && AllSpace(back)
    ensures Trim(front + s + back) == s
  {
    var padded := front + s + back;
    assert padded[|front|..|front| + |s|] == s;
    assert padded[..|front|] == front && padded[|front| + |s|..] == back;
    TrimIs(padded, |front|, |front| + |s|);
  }

  lemma {:induction false} SplitAtEquals(left: string, right: string)
    requires Without(left, '=')
    ensures SplitLine(Trim(left + "=" + right)) == Setting(Trim(left), Trim(right))
  {
    var body, e := left + "=" + right, |left|;
    assert body[..e] == left && body[e + 1..] == right;
    SettingMeans(body, e);
  }

  lemma {:induction false} SplitPrinted(key: string, value: string)
    requires Trimmed(key) && Without(key, '=') && Trimmed(value)
    ensures SplitLine(Trim(key + " = " + value + " ")) == Setting(key, value)
  {
    var left, right := "" + key + " ", " " + value + " ";
    assert key + " = " + value + " " == left + "=" + right;
    SplitAtEquals(left, right);
    TrimPadded("", key, " ");
    TrimPadded(" ", value, " ");
  }

  lemma {:induction false} ParsePrintedLine(e: Entry)
    requires Printable(e)
    ensures ParseLine(PrintLine(e)) == if e.Entry? then Setting(e.key, e.value) else Blank
  {
    if e.Entry? {
      PrintedBody(e);
      SplitPrinted(e.key, e.value);
    } else {
      var n := |e.indent|;
      assert PrintLine(e)[..n] == e.indent;
      assert forall i :: 0 <= i < n ==> IsSpace(e.indent[i]) && e.indent[i] != '#';
      LineMeans(PrintLine(e), n);
    }
  }

  /** From position `k` on `s` is `b`. */
  ghost predicate EndsIn(s: string, k: nat, b: string) {
    |s| == k + |b| && s[k..] == b
  }

  /** Lines do not look back: a text in front adds its own lines only. */
  lemma {:induction false} LinesShift(s: string, k: nat, b: string, i: nat)
    requires EndsIn(s, k, b) && i <= |b|
    ensures Lines(s, k + i) == Lines(b, i)
  {
    LinesAreTokens(s, k + i);
    LinesAreTokens(b, i);
    assert s[k + i..] == s[k..][i..];
  }

  lemma {:induction false} FirstLine(line: string, rest: string)
    requires line != "" && NoEol(line)
    ensures Lines(line + "\n" + rest, 0) == [line] + Lines(rest, 0)
  {
    var n := |line|;
    var s := line + "\n" + rest;
    assert s[0] == line[0];
    assert SkipEol(s, 0) == 0;
    forall j | 0 <= j < n
      ensures !IsEol(s[j])
    {
      assert s[j] == line[j];
    }
    assert s[n] == '\n';
    assert LineEnd(s, 0) == n;
    assert s[0..n] == line;
    assert Lines(s, n) == Lines(s, n + 1) by {
      assert s[n] == '\n';
      assert SkipEol(s, n) == SkipEol(s, n + 1);
    }
    assert s[n + 1..] == rest;
    LinesShift(s, n + 1, rest, 0);
  }

  lemma {:induction false} PrintLineHasNoEol(e: Entry)
    requires Printable(e)
    ensures NoEol(PrintLine(e)) && (PrintLine(e) == "" ==> !e.Entry?)
  {
  }

  /** An empty line is no line. */
  lemma {:induction false} EmptyLine(rest: string)
    ensures Lines("\n" + rest, 0) == Lines(rest, 0)
  {
    var s := "\n" + rest;
    assert SkipEol(s, 0) == SkipEol(s, 1);
    assert Lines(s, 0) == Lines(s, 1);
    assert s[1..] == rest;
    LinesShift(s, 1, rest, 0);
  }

  function PrintedLines(entries: seq<Entry>): seq<string> {
    if entries == [] then []
    else LineOrNone(PrintLine(entries[0])) + PrintedLines(entries[1..])
  }

  function LineOrNone(line: string): seq<string> {
    if line == "" then [] else [line]
  }

  lemma {:induction false} LineThen(line: string, rest: string)
    requires NoEol(line)
    ensures Lines(line + "\n" + rest, 0) == LineOrNone(line) + Lines(rest, 0)
  {
    if line == "" {
      assert line + "\n" + rest == "\n" + rest;
      EmptyLine(rest);
    } else {
      FirstLine(line, rest);
    }
  }

  /** `lines` takes the first line of a text apart from the rest. */
  ghost predicate TakesLines(lines: string -> seq<string>) {
    forall line, rest :: NoEol(line) ==> lines(line + "\n" + rest) == LineOrNone(line) + lines(rest)
  }

  lemma Regroup(a: string, b: string, c: string)
    ensures a + b + c == a + (b + c)
  {
  }

  lemma {:induction false} TakesPrinted(lines: string -> seq<string>, entries: seq<Entry>, rest: string)
    requires TakesLines(lines) && forall i :: 0 <= i < |entries| ==> Printable(entries[i])
    ensures lines(Print(entries) + rest) == PrintedLines(entries) + lines(rest)
    decreases |entries|
  {
    if entries == [] {
      assert Print(entries) + rest == rest;
    } else {
      var line, more := PrintLine(entries[0]), Print(entries[1..]);
      PrintLineHasNoEol(entries[0]);
      Regroup(line + "\n", more, rest);
      assert lines(line + "\n" + (more + rest)) == LineOrNone(line) + lines(more + rest);
      TakesPrinted(lines, entries[1..], rest);
    }
  }

  /** The lines of a text behind printed entries. */
  lemma {:induction false} LinesOfPrint(entries: seq<Entry>, rest: string)
    requires forall i :: 0 <= i < |entries| ==> Printable(entries[i])
    ensures Lines(Print(entries) + rest, 0) == PrintedLines(entries) + Lines(rest, 0)
  {
    var lines := (s: string) => Lines(s, 0);
    forall line, more | NoEol(line)
      ensures lines(line + "\n" + more) == LineOrNone(line) + lines(more)
    {
      LineThen(line, more);
    }
    TakesPrinted(lines, entries, rest);
    assert lines(Print(entries) + rest) == PrintedLines(entries) + lines(rest);
  }

  ghost predicate Acceptable(e: Entry, optSet: (string, string) -> int) {
    Printable(e) && (e.Entry? ==> optSet(e.key, e.value) >= 0)
  }

  /** A line without error comes first. */
  lemma ParseLineThen(line: string, lines: seq<string>, optSet: (string, string) -> int)
    requires ParseLine(line) != Malformed
    requires ParseLine(line).Setting? ==> optSet(ParseLine(line).key, ParseLine(line).value) >= 0
    ensures var p := Parse(lines, optSet);
            Parse([line] + lines, optSet)
            == Outcome((if ParseLine(line).Setting? then [(ParseLine(line).key, ParseLine(line).value)] else [])
                       + p.settings, p.ret)
  {
    assert ([line] + lines)[1..] == lines;
  }

  ghost function ParseWith(optSet: (string, string) -> int): seq<string> -> Outcome {
    lines => Parse(lines, optSet)
  }

  /** `lines` make these settings and no error. */
  ghost predicate Makes(lines: seq<string>, settings: seq<(string, string)>, parse: seq<string> -> Outcome) {
    forall rest :: parse(lines + rest) == Then(settings, parse(rest))
  }

  lemma MakesBoth(a: seq<string>, s: seq<(string, string)>, b: seq<string>, t: seq<(string, string)>,
                  parse: seq<string> -> Outcome)
    requires Makes(a, s, parse) && Makes(b, t, parse)
    ensures Makes(a + b, s + t, parse)
  {
    forall rest
      ensures parse(a + b + rest) == Then(s + t, parse(rest))
    {
      assert a + b + rest == a + (b + rest);
      assert parse(b + rest) == Then(t, parse(rest));
      assert s + (t + parse(rest).settings) == s + t + parse(rest).settings;
    }
  }

  lemma {:induction false} PrintedMakes(e: Entry, optSet: (string, string) -> int)
    requires Acceptable(e, optSet)
    ensures Makes(LineOrNone(PrintLine(e)), if e.Entry? then [(e.key, e.value)] else [], ParseWith(optSet))
  {
    var line, made := PrintLine(e), if e.Entry? then [(e.key, e.value)] else [];
    ParsePrintedLine(e);
    PrintLineHasNoEol(e);
    forall rest
      ensures ParseWith(optSet)(LineOrNone(line) + rest) == Then(made, ParseWith(optSet)(rest))
    {
      if line == "" {
        assert LineOrNone(line) + rest == rest;
      } else {
        ParseLineThen(line, rest, optSet);
      }
    }
  }

  lemma {:induction false} PrintedLinesMake(entries: seq<Entry>, optSet: (string, string) -> int)
    requires forall i :: 0 <= i < |entries| ==> Acceptable(entries[i], optSet)
    ensures Makes(PrintedLines(entries), Settings(entries), ParseWith(optSet))
    decreases |entries|
  {
    if entries == [] {
      forall rest
        ensures ParseWith(optSet)(PrintedLines(entries) + rest) == Then([], ParseWith(optSet)(rest))
      {
        assert PrintedLines(entries) + rest == rest;
      }
    } else {
      var e := entries[0];
      PrintedMakes(e, optSet);
      PrintedLinesMake(entries[1..], optSet);
      MakesBoth(LineOrNone(PrintLine(e)), if e.Entry? then [(e.key, e.value)] else [],
                PrintedLines(entries[1..]), Settings(entries[1..]), ParseWith(optSet));
    }
  }

  /** Round trip: parsing what was printed yields the same settings in the same order, whatever
      comments and blank lines stand between them, provided every one is acceptable; what follows
      is parsed as if it stood alone. */
  lemma {:induction false} ParseUndoesPrint(entries: seq<Entry>, rest: string, optSet: (string, string) -> int)
    requires forall i :: 0 <= i < |entries| ==> Acceptable(entries[i], optSet)
    ensures ParseText(Print(entries) + rest, optSet) == Then(Settings(entries), ParseText(rest, optSet))
    ensures ParseText(Print(entries), optSet) == Outcome(Settings(entries), 0)
  {
    var parse, lines := ParseWith(optSet), PrintedLines(entries);
    PrintedLinesMake(entries, optSet);
    LinesOfPrint(entries, rest);
    assert parse(lines + Lines(rest, 0)) == Then(Settings(entries), parse(Lines(rest, 0)));
    LinesOfPrint(entries, "");
    assert Print(entries) + "" == Print(entries);
    assert parse(lines + []) == Then(Settings(entries), parse([]));
    assert Settings(entries) + [] == Settings(entries);
  }

  /** The first line that is no setting, or whose setting is refused, ends the parse: what stands
      before it is set, nothing behind it is, and the outcome is its error. */
  lemma {:induction false} ParseStopsAtError(entries: seq<Entry>, bad: string, rest: string,
                                             optSet: (string, string) -> int)
    requires forall i :: 0 <= i < |entries| ==> Acceptable(entries[i], optSet)
    requires NoEol(bad)
    ensures var o, line := ParseText(Print(entries) + (bad + "\n" + rest), optSet), ParseLine(bad);
            && (line == Malformed ==> o == Outcome(Settings(entries), ERROR_INVALID_DATA))
            && (line.Setting? && optSet(line.key, line.value) < 0 ==>
                  o == Outcome(Settings(entries), optSet(line.key, line.value)))
  {
    if ParseLine(bad) != Blank {
      if bad == "" {
        LineMeans(bad, 0);
        assert false;
      }
      FirstLine(bad, rest);
      ParseUndoesPrint(entries, bad + "\n" + rest, optSet);
      assert Settings(entries) + [] == Settings(entries);
    }
  }
}
