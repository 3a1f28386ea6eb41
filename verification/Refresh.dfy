/** Generated files: the header that is printed, parsed again, and used to detect drift. */
module Refresh {
  import opened Evidence

  datatype Header = Header(version: string, mod: string, func: string, astHash: string, contentHash: string)

  // ---------------------------------------------------------------------------
  // Lines
  // ---------------------------------------------------------------------------

  /** text.split("\n") */
  function Split(s: string): (lines: seq<string>)
    ensures lines != []
  {
    if s == [] then [[]]
    else if s[0] == '\n' then [[]] + Split(s[1..])
    else
      var rest := Split(s[1..]);
      [[s[0]] + rest[0]] + rest[1..]
  }

  /** "\n".join(lines) */
  function Join(lines: seq<string>): string {
    if lines == [] then []
    else if |lines| == 1 then lines[0]
    else lines[0] + ['\n'] + Join(lines[1..])
  }

  lemma JoinStarts(lines: seq<string>)
    requires lines != []
    ensures Join([[]] + lines) == ['\n'] + Join(lines)
  {
    assert ([[]] + lines)[1..] == lines;
  }

  lemma JoinPushes(c: char, lines: seq<string>)
    requires lines != []
    ensures Join([[c] + lines[0]] + lines[1..]) == [c] + Join(lines)
  {
    var pushed := [[c] + lines[0]] + lines[1..];
    assert pushed[1..] == lines[1..];
    if |lines| > 1 {
      assert ([c] + lines[0]) + ['\n'] + Join(lines[1..]) == [c] + (lines[0] + ['\n'] + Join(lines[1..]));
    }
  }

  lemma {:induction false} JoinUndoesSplit(s: string)
    ensures Join(Split(s)) == s
  {
    if s != [] {
      JoinUndoesSplit(s[1..]);
      var rest := Split(s[1..]);
      if s[0] == '\n' { JoinStarts(rest); } else { JoinPushes(s[0], rest); }
    }
  }

  lemma {:induction false} SplitLine(line: string, rest: string)
    requires '\n' !in line
    ensures Split(line + ['\n'] + rest) == [line] + Split(rest)
  {
    var s := line + ['\n'] + rest;
    if line == [] {
      assert s[1..] == rest;
    } else {
      SplitLine(line[1..], rest);
      assert s[1..] == line[1..] + ['\n'] + rest;
      assert s[0] == line[0] && [line[0]] + line[1..] == line;
    }
  }

  predicate IsComment(line: string) {
    line != [] && line[0] == '#'
  }

  /** The length of the leading run of comment lines. */
  function HeaderEnd(lines: seq<string>): (n: nat)
    ensures n <= |lines|
  {
    if lines == [] || !IsComment(lines[0]) then 0 else 1 + HeaderEnd(lines[1..])
  }

  /** _split_header_and_body */
  method SplitHeaderAndBody(text: string) returns (header: string, body: string)
    ensures var lines := Split(text);
            header == Join(lines[..HeaderEnd(lines)]) && body == Join(lines[HeaderEnd(lines)..])
  {
    var lines := Split(text);
    var headerEnd := 0;
    for i := 0 to |lines|
      invariant headerEnd == i && HeaderEnd(lines) == i + HeaderEnd(lines[i..])
    {
      assert lines[i..][1..] == lines[i + 1..];
      if IsComment(lines[i]) {
        headerEnd := i + 1;
      } else {
        break;
      }
    }
    header, body := Join(lines[..headerEnd]), Join(lines[headerEnd..]);
  }

  /** The body detect_drift looks at. */
  function BodyOf(text: string): string {
    Join(Split(text)[HeaderEnd(Split(text))..])
  }

  /** Whole lines on top of a text. */
  function Above(lines: seq<string>, body: string): string {
    if lines == [] then body else lines[0] + ['\n'] + Above(lines[1..], body)
  }

  lemma {:induction false} BodyUnderComments(lines: seq<string>, body: string)
    requires forall i :: 0 <= i < |lines| ==> IsComment(lines[i]) && '\n' !in lines[i]
    ensures BodyOf(Above(lines, body)) == BodyOf(body)
  {
    if lines != [] {
      BodyUnderComments(lines[1..], body);
      var rest := Above(lines[1..], body);
      SplitLine(lines[0], rest);
      var all := [lines[0]] + Split(rest);
      assert all[1..] == Split(rest);
      assert all[HeaderEnd(all)..] == Split(rest)[HeaderEnd(Split(rest))..];
    }
  }

  lemma {:induction false} ShorterJoin(lines: seq<string>, n: nat)
    requires n <= |lines|
    ensures |Join(lines[n..])| <= |Join(lines)|
    ensures 0 < n < |lines| ==> |Join(lines[n..])| < |Join(lines)|
    ensures n == |lines| ==> Join(lines[n..]) == []
  {
    if n == 0 {
      assert lines[0..] == lines;
    } else {
      ShorterJoin(lines[1..], n - 1);
      assert lines[1..][n - 1..] == lines[n..];
    }
  }

  /** A text keeps all of its body exactly when it does not open with a comment line. */
  lemma BodyIsWholeIff(body: string)
    ensures BodyOf(body) == body <==> !IsComment(body)
  {
    var lines := Split(body);
    JoinUndoesSplit(body);
    assert lines[0..] == lines;
    assert body != [] && body[0] != '\n' ==> lines[0] != [] && lines[0][0] == body[0];
    if IsComment(body) { ShorterJoin(lines, HeaderEnd(lines)); }
  }

  // ---------------------------------------------------------------------------
  // Patterns
  // ---------------------------------------------------------------------------

  predicate IsDigit(c: char) { '0' <= c <= '9' }

  predicate IsHex(c: char) { IsDigit(c) || 'a' <= c <= 'f' }

  predicate IsWord(c: char) { IsDigit(c) || 'a' <= c <= 'z' || 'A' <= c <= 'Z' || c == '_' }

  predicate IsDotted(c: char) { IsWord(c) || c == '.' }

  predicate IsSpace(c: char) { c in [' ', '\t', '\n', '\r', 11 as char, 12 as char] }

  /** The length of the longest prefix made of such characters. */
  function Span(s: string, ok: char -> bool): (n: nat)
    ensures n <= |s|
  {
    if s == [] || !ok(s[0]) then 0 else 1 + Span(s[1..], ok)
  }

  lemma {:induction false} SpanOf(a: string, b: string, ok: char -> bool)
    requires forall i :: 0 <= i < |a| ==> ok(a[i])
    requires b == [] || !ok(b[0])
    ensures Span(a + b, ok) == |a|
  {
    if a == [] {
      assert a + b == b;
    } else {
      assert (a + b)[1..] == a[1..] + b;
      SpanOf(a[1..], b, ok);
    }
  }

  /** \d+(\.\d+)*, greedily; 0 when there is no match. */
  function VersionSpan(s: string): (n: nat)
    ensures n <= |s|
  {
    var d := Span(s, IsDigit);
    if d == 0 || d + 1 >= |s| || s[d] != '.' then d
    else
      var more := VersionSpan(s[d + 1..]);
      if more == 0 then d else d + 1 + more
  }

  predicate IsVersion(v: string) {
    v != [] && VersionSpan(v) == |v|
  }

  lemma {:induction false} SpanIsPrefix(s: string, ok: char -> bool)
    ensures forall i :: 0 <= i < Span(s, ok) ==> ok(s[i])
    ensures Span(s, ok) < |s| ==> !ok(s[Span(s, ok)])
  {
    if s != [] && ok(s[0]) {
      SpanIsPrefix(s[1..], ok);
      assert forall i :: 0 < i < |s| ==> s[i] == s[1..][i - 1];
    }
  }

  lemma VersionEnds(s: string, d: nat)
    requires Span(s, IsDigit) == d && d + 1 < |s| && !IsDigit(s[d + 1..][0])
    ensures VersionSpan(s) == d
  {
    assert Span(s[d + 1..], IsDigit) == 0;
  }

  /** A version is read back whole when a full stop and then a non-digit follow it. */
  lemma {:induction false} VersionSpanOf(v: string, rest: string)
    requires IsVersion(v) && |rest| >= 2 && rest[0] == '.' && !IsDigit(rest[1])
    ensures VersionSpan(v + rest) == |v|
  {
    var d, s := Span(v, IsDigit), v + rest;
    SpanIsPrefix(v, IsDigit);
    var tail := v[d..] + rest;
    assert s == v[..d] + tail;
    SpanOf(v[..d], tail, IsDigit);
    if d == |v| {
      assert s[d + 1..] == rest[1..];
      VersionEnds(s, d);
    } else {
      VersionSpanOf(v[d + 1..], rest);
      assert s[d + 1..] == v[d + 1..] + rest;
    }
  }

  datatype Pattern = VersionPattern | SourcePattern | AstPattern | ContentPattern

  function Literal(p: Pattern): string {
    match p
    case VersionPattern => "# Generated by Postrule v"
    case SourcePattern => "# Source:"
    case AstPattern => "# AST hash:"
    case ContentPattern => "# Content hash:"
  }

  /** What the groups of a pattern capture right after its literal. */
  function Captures(p: Pattern, s: string): Option<(string, string)> {
    match p
    case VersionPattern =>
      var n := VersionSpan(s);
      if n == 0 then None else Some((s[..n], []))
    case SourcePattern =>
      var t := s[Span(s, IsSpace)..];
      var m := Span(t, IsDotted);
      if m == 0 || m == |t| || t[m] != ':' then None
      else
        var f := Span(t[m + 1..], IsWord);
        if f == 0 then None else Some((t[..m], t[m + 1..][..f]))
    case _ =>
      var t := s[Span(s, IsSpace)..];
      var n := Span(t, IsHex);
      if n == 0 then None else Some((t[..n], []))
  }

  type Groups = Option<(string, string)>

  function CapturesOf(p: Pattern): string -> Groups {
    s => Captures(p, s)
  }

  function MatchWith(l: string, captures: string -> Groups, s: string): Groups {
    if l <= s then captures(s[|l|..]) else None
  }

  /** re.search: the first position where the pattern matches. */
  function SearchWith(l: string, captures: string -> Groups, text: string): Groups {
    if MatchWith(l, captures, text).Some? then MatchWith(l, captures, text)
    else if text == [] then None
    else SearchWith(l, captures, text[1..])
  }

  function MatchAt(p: Pattern, s: string): Groups {
    MatchWith(Literal(p), CapturesOf(p), s)
  }

  function Search(p: Pattern, text: string): Groups {
    SearchWith(Literal(p), CapturesOf(p), text)
  }

  /** The first and the third character of every literal. */
  function Initial(p: Pattern): char {
    match p
    case VersionPattern => 'G'
    case SourcePattern => 'S'
    case AstPattern => 'A'
    case ContentPattern => 'C'
  }

  lemma LiteralShape(p: Pattern)
    ensures var l := Literal(p); |l| >= 3 && l[0] == '#' && l[2] == Initial(p)
  {
  }

  /** No position of the text starts a literal of the pattern: a '#' in it is followed by another word. */
  predicate Passes(initial: char, text: string) {
    forall i | 0 <= i < |text| :: text[i] == '#' ==> i + 2 < |text| && text[i + 2] != initial
  }

  lemma NotAPrefix(l: string, s: string)
    requires |l| >= 3 && s != []
    requires s[0] != l[0] || (|s| >= 3 && s[2] != l[2])
    ensures !(l <= s)
  {
  }

  lemma {:induction false} SearchSkipsWith(l: string, captures: string -> Groups, pre: string, tail: string)
    requires |l| >= 3 && l[0] == '#' && Passes(l[2], pre) && MatchWith(l, captures, tail).Some?
    ensures SearchWith(l, captures, pre + tail) == MatchWith(l, captures, tail)
  {
    if pre == [] {
      assert pre + tail == tail;
    } else {
      NotAPrefix(l, pre + tail);
      assert (pre + tail)[1..] == pre[1..] + tail;
      assert forall i :: 0 <= i < |pre[1..]| ==> pre[1..][i] == pre[i + 1];
      SearchSkipsWith(l, captures, pre[1..], tail);
    }
  }

  lemma SearchSkips(p: Pattern, pre: string, tail: string)
    requires Passes(Initial(p), pre) && MatchAt(p, tail).Some?
    ensures Search(p, pre + tail) == MatchAt(p, tail)
  {
    LiteralShape(p);
    SearchSkipsWith(Literal(p), CapturesOf(p), pre, tail);
  }

  // ---------------------------------------------------------------------------
  // The header
  // ---------------------------------------------------------------------------

  const HASH_LENGTH := 32

  const DO_NOT_EDIT := ".  DO NOT EDIT BY HAND."

  function VersionLine(v: string): string { "# Generated by Postrule v" + (v + DO_NOT_EDIT) }

  function SourceLine(m: string, f: string): string { "# Source:" + (" " + m + ":" + f) }

  function AstLine(h: string): string { "# AST hash:" + (" " + h) }

  function ContentLine(h: string): string { "# Content hash:" + (" " + h) }

  /** _format_header, as lines. */
  function HeaderLines(h: Header): seq<string> {
    [VersionLine(h.version), SourceLine(h.mod, h.func), AstLine(h.astHash), ContentLine(h.contentHash),
     "# Run" + (" `postrule refresh` to" + " regenerate after the" + " source changes."),
     "# Manual" + (" edits will be" + " overwritten unless" + " you pass --force.")]
  }

  /** What the header's fields may be. */
  predicate WellFormed(h: Header) {
    && IsVersion(h.version)
    && h.mod != [] && (forall i | 0 <= i < |h.mod| :: IsDotted(h.mod[i]))
    && h.func != [] && (forall i | 0 <= i < |h.func| :: IsWord(h.func[i]))
    && IsHash(h.astHash) && IsHash(h.contentHash)
  }

  predicate IsHash(s: string) {
    |s| == HASH_LENGTH && forall i | 0 <= i < |s| :: IsHex(s[i])
  }

  predicate Contains(s: string, part: string) {
    exists i | 0 <= i <= |s| :: part <= s[i..]
  }

  /** parse_generated_header; None for a ValueError. */
  function Parse(text: string): Option<Header> {
    if !Contains(Split(text)[0], "# Generated by Postrule") then None
    else
      var version, source := Search(VersionPattern, text), Search(SourcePattern, text);
      var ast, content := Search(AstPattern, text), Search(ContentPattern, text);
      if version.None? || source.None? || ast.None? || content.None? then None
      else if |ast.value.0| != HASH_LENGTH || |content.value.0| != HASH_LENGTH then None
      else Some(Header(version.value.0, source.value.0, source.value.1, ast.value.0, content.value.0))
  }

  predicate Clean(s: string) {
    forall i | 0 <= i < |s| :: s[i] != '#' && s[i] != '\n'
  }

  /** A line with one '#', at its start, whose word starts with the given letter. */
  predicate OneHash(line: string, initial: char) {
    |line| >= 3 && line[0] == '#' && line[2] == initial && Clean(line[1..])
  }

  lemma VersionIsClean(v: string)
    requires IsVersion(v)
    ensures Clean(v)
    decreases |v|
  {
    var d := Span(v, IsDigit);
    SpanIsPrefix(v, IsDigit);
    if d + 1 < |v| {
      var more := v[d + 1..];
      VersionIsClean(more);
      assert forall i :: d < i < |v| ==> v[i] == more[i - d - 1];
    }
  }

  lemma PrefixIsOneHash(start: string, initial: char, rest: string)
    requires OneHash(start, initial) && Clean(rest)
    ensures OneHash(start + rest, initial)
  {
    assert (start + rest)[1..] == start[1..] + rest;
  }

  lemma CleanParts()
    ensures Clean(DO_NOT_EDIT)
  {
  }

  lemma GeneratedBy()
    ensures OneHash("# Generated by Postrule v", 'G')
  {
  }

  lemma VersionLineShape(v: string)
    requires IsVersion(v)
    ensures OneHash(VersionLine(v), 'G')
  {
    VersionIsClean(v);
    CleanParts();
    GeneratedBy();
    PrefixIsOneHash("# Generated by Postrule v", 'G', v + DO_NOT_EDIT);
  }

  lemma SourceLineShape(m: string, f: string)
    requires forall i :: 0 <= i < |m| ==> IsDotted(m[i])
    requires forall i :: 0 <= i < |f| ==> IsWord(f[i])
    ensures OneHash(SourceLine(m, f), 'S')
  {
    PrefixIsOneHash("# Source:", 'S', " " + m + ":" + f);
  }

  lemma HashLineShapes(h: string)
    requires IsHash(h)
    ensures OneHash(AstLine(h), 'A') && OneHash(ContentLine(h), 'C')
  {
    PrefixIsOneHash("# AST hash:", 'A', " " + h);
    PrefixIsOneHash("# Content hash:", 'C', " " + h);
  }

  lemma PassesLine(initial: char, line: string, word: char, pre: string)
    requires OneHash(line, word) && word != initial && Passes(initial, pre)
    ensures Passes(initial, pre + (line + ['\n']))
  {
    var s := line + ['\n'];
    forall i | 0 < i < |s| ensures s[i] != '#' {
      if i < |line| { assert s[i] == line[1..][i - 1]; }
    }
  }

  lemma CaptureVersion(v: string, rest: string)
    requires IsVersion(v) && |rest| >= 2 && rest[0] == '.' && !IsDigit(rest[1])
    ensures Captures(VersionPattern, v + rest) == Some((v, []))
  {
    VersionSpanOf(v, rest);
    assert (v + rest)[..|v|] == v;
  }

  lemma MatchFrom(p: Pattern, after: string)
    ensures MatchAt(p, Literal(p) + after) == Captures(p, after)
  {
    assert (Literal(p) + after)[|Literal(p)|..] == after;
  }

  lemma MatchVersion(v: string, rest: string)
    requires IsVersion(v)
    ensures MatchAt(VersionPattern, VersionLine(v) + ['\n'] + rest) == Some((v, []))
  {
    var tail := DO_NOT_EDIT + (['\n'] + rest);
    assert VersionLine(v) + ['\n'] + rest == Literal(VersionPattern) + (v + tail);
    MatchFrom(VersionPattern, v + tail);
    CaptureVersion(v, tail);
  }

  lemma CaptureSource(m: string, f: string, rest: string)
    requires m != [] && forall i :: 0 <= i < |m| ==> IsDotted(m[i])
    requires f != [] && forall i :: 0 <= i < |f| ==> IsWord(f[i])
    requires rest != [] && !IsWord(rest[0])
    ensures Captures(SourcePattern, [' '] + (m + ([':'] + (f + rest)))) == Some((m, f))
  {
    var tail := [':'] + (f + rest);
    var t := m + tail;
    SpanOf([' '], t, IsSpace);
    assert ([' '] + t)[1..] == t;
    SpanOf(m, tail, IsDotted);
    SpanOf(f, rest, IsWord);
    assert t[|m| + 1..] == f + rest;
    assert t[..|m|] == m && (f + rest)[..|f|] == f;
  }

  lemma CaptureHash(p: Pattern, h: string, rest: string)
    requires p == AstPattern || p == ContentPattern
    requires IsHash(h) && rest != [] && !IsHex(rest[0])
    ensures Captures(p, [' '] + (h + rest)) == Some((h, []))
  {
    var t := h + rest;
    SpanOf([' '], t, IsSpace);
    assert ([' '] + t)[1..] == t;
    SpanOf(h, rest, IsHex);
    assert t[..|h|] == h;
  }

  lemma MatchSource(m: string, f: string, rest: string)
    requires m != [] && forall i :: 0 <= i < |m| ==> IsDotted(m[i])
    requires f != [] && forall i :: 0 <= i < |f| ==> IsWord(f[i])
    ensures MatchAt(SourcePattern, SourceLine(m, f) + ['\n'] + rest) == Some((m, f))
  {
    var after := [' '] + (m + ([':'] + (f + (['\n'] + rest))));
    assert SourceLine(m, f) + ['\n'] + rest == Literal(SourcePattern) + after;
    MatchFrom(SourcePattern, after);
    CaptureSource(m, f, ['\n'] + rest);
  }

  lemma MatchHashes(h: string, rest: string)
    requires IsHash(h)
    ensures MatchAt(AstPattern, AstLine(h) + ['\n'] + rest) == Some((h, []))
    ensures MatchAt(ContentPattern, ContentLine(h) + ['\n'] + rest) == Some((h, []))
  {
    var after := [' '] + (h + (['\n'] + rest));
    assert AstLine(h) + ['\n'] + rest == Literal(AstPattern) + after;
    assert ContentLine(h) + ['\n'] + rest == Literal(ContentPattern) + after;
    MatchFrom(AstPattern, after);
    MatchFrom(ContentPattern, after);
    CaptureHash(AstPattern, h, ['\n'] + rest);
    CaptureHash(ContentPattern, h, ['\n'] + rest);
  }

  lemma AboveOne(pre: string, lines: seq<string>, tail: string)
    requires lines != []
    ensures pre + Above(lines, tail) == pre + (lines[0] + ['\n']) + Above(lines[1..], tail)
  {
  }

  /** Lines whose words start differently are skipped by the search. */
  lemma {:induction false} SearchSkipsLines(p: Pattern, lines: seq<string>, words: seq<char>, pre: string, tail: string)
    requires |lines| == |words| && Passes(Initial(p), pre) && MatchAt(p, tail).Some?
    requires forall i :: 0 <= i < |lines| ==> OneHash(lines[i], words[i]) && words[i] != Initial(p)
    ensures Search(p, pre + Above(lines, tail)) == MatchAt(p, tail)
    decreases |lines|
  {
    if lines == [] {
      SearchSkips(p, pre, tail);
    } else {
      PassesLine(Initial(p), lines[0], words[0], pre);
      SearchSkipsLines(p, lines[1..], words[1..], pre + (lines[0] + ['\n']), tail);
      AboveOne(pre, lines, tail);
    }
  }

  lemma {:induction false} AboveSplits(lines: seq<string>, k: nat, body: string)
    requires k <= |lines|
    ensures Above(lines, body) == Above(lines[..k], Above(lines[k..], body))
  {
    if k == 0 {
      assert lines[0..] == lines;
    } else {
      AboveSplits(lines[1..], k - 1, body);
      assert lines[..k][1..] == lines[1..][..k - 1] && lines[k..] == lines[1..][k - 1..];
    }
  }

  /** The line a pattern is for. */
  function LineOf(p: Pattern): nat {
    match p
    case VersionPattern => 0
    case SourcePattern => 1
    case AstPattern => 2
    case ContentPattern => 3
  }

  predicate FourLines(lines: seq<string>) {
    |lines| >= 4 && OneHash(lines[0], 'G') && OneHash(lines[1], 'S') && OneHash(lines[2], 'A') && OneHash(lines[3], 'C')
  }

  /** The search of the whole text finds the pattern's own line. */
  lemma FindLine(p: Pattern, k: nat, lines: seq<string>, body: string, found: Groups)
    requires FourLines(lines) && k == LineOf(p)
    requires MatchAt(p, lines[k] + ['\n'] + Above(lines[k + 1..], body)) == found && found.Some?
    ensures Search(p, Above(lines, body)) == found
  {
    var words := ['G', 'S', 'A', 'C'];
    var tail := Above(lines[k..], body);
    assert lines[k..][1..] == lines[k + 1..];
    AboveSplits(lines, k, body);
    forall i | 0 <= i < k ensures OneHash(lines[i], words[i]) && words[i] != Initial(p) {
      assert i == 0 || i == 1 || i == 2;
    }
    SearchSkipsLines(p, lines[..k], words[..k], [], tail);
    assert [] + Above(lines[..k], tail) == Above(lines, body);
  }

  lemma StartsWithPrefix(lines: seq<string>, body: string, part: string)
    requires lines != [] && part <= lines[0] && '\n' !in lines[0]
    ensures Contains(Split(Above(lines, body))[0], part)
  {
    SplitLine(lines[0], Above(lines[1..], body));
    assert lines[0][0..] == lines[0];
  }

  lemma VersionLineStart(v: string)
    ensures "# Generated by Postrule" <= VersionLine(v)
  {
    assert "# Generated by Postrule v" == "# Generated by Postrule" + " v";
  }

  lemma ParseFound(text: string, h: Header)
    requires Contains(Split(text)[0], "# Generated by Postrule") && IsHash(h.astHash) && IsHash(h.contentHash)
    requires Search(VersionPattern, text) == Some((h.version, [])) && Search(SourcePattern, text) == Some((h.mod, h.func))
    requires Search(AstPattern, text) == Some((h.astHash, [])) && Search(ContentPattern, text) == Some((h.contentHash, []))
    ensures Parse(text) == Some(h)
  {
  }

  /** Each line is matched by its own pattern, with the header's fields for groups. */
  predicate LinesMatch(lines: seq<string>, h: Header, body: string)
    requires |lines| >= 4
  {
    && MatchAt(VersionPattern, lines[0] + ['\n'] + Above(lines[1..], body)) == Some((h.version, []))
    && MatchAt(SourcePattern, lines[1] + ['\n'] + Above(lines[2..], body)) == Some((h.mod, h.func))
    && MatchAt(AstPattern, lines[2] + ['\n'] + Above(lines[3..], body)) == Some((h.astHash, []))
    && MatchAt(ContentPattern, lines[3] + ['\n'] + Above(lines[4..], body)) == Some((h.contentHash, []))
  }

  lemma FindFirstLines(lines: seq<string>, h: Header, body: string)
    requires FourLines(lines) && LinesMatch(lines, h, body)
    ensures Search(VersionPattern, Above(lines, body)) == Some((h.version, []))
    ensures Search(SourcePattern, Above(lines, body)) == Some((h.mod, h.func))
  {
    FindLine(VersionPattern, 0, lines, body, Some((h.version, [])));
    FindLine(SourcePattern, 1, lines, body, Some((h.mod, h.func)));
  }

  lemma FindHashLines(lines: seq<string>, h: Header, body: string)
    requires FourLines(lines) && LinesMatch(lines, h, body)
    ensures Search(AstPattern, Above(lines, body)) == Some((h.astHash, []))
    ensures Search(ContentPattern, Above(lines, body)) == Some((h.contentHash, []))
  {
    FindLine(AstPattern, 2, lines, body, Some((h.astHash, [])));
    FindLine(ContentPattern, 3, lines, body, Some((h.contentHash, [])));
  }

  /** Parsing such lines. */
  lemma ParseLines(lines: seq<string>, h: Header, body: string)
    requires FourLines(lines) && IsHash(h.astHash) && IsHash(h.contentHash)
    requires "# Generated by Postrule" <= lines[0] && LinesMatch(lines, h, body)
    ensures Parse(Above(lines, body)) == Some(h)
  {
    FindFirstLines(lines, h, body);
    FindHashLines(lines, h, body);
    OneHashIsOneLine(lines[0], 'G');
    StartsWithPrefix(lines, body, "# Generated by Postrule");
    ParseFound(Above(lines, body), h);
  }

  lemma OneHashIsOneLine(line: string, word: char)
    requires OneHash(line, word)
    ensures IsComment(line) && '\n' !in line
  {
    forall i | 0 <= i < |line| ensures line[i] != '\n' {
      if i > 0 { assert line[i] == line[1..][i - 1]; }
    }
  }

  lemma PrintedLines(h: Header)
    requires WellFormed(h)
    ensures FourLines(HeaderLines(h)) && "# Generated by Postrule" <= HeaderLines(h)[0]
  {
    VersionLineShape(h.version);
    SourceLineShape(h.mod, h.func);
    HashLineShapes(h.astHash);
    HashLineShapes(h.contentHash);
    VersionLineStart(h.version);
  }

  /** Parsing a printed header gives the fields back, whatever stands below it. */
  lemma ParseUndoesFormat(h: Header, body: string)
    requires WellFormed(h)
    ensures Parse(Above(HeaderLines(h), body)) == Some(h)
  {
    var lines := HeaderLines(h);
    PrintedLines(h);
    MatchVersion(h.version, Above(lines[1..], body));
    MatchSource(h.mod, h.func, Above(lines[2..], body));
    MatchHashes(h.astHash, Above(lines[3..], body));
    MatchHashes(h.contentHash, Above(lines[4..], body));
    ParseLines(lines, h, body);
  }

  lemma {:induction false} VersionSpanIsVersion(s: string)
    ensures VersionSpan(s[..VersionSpan(s)]) == VersionSpan(s)
  {
    var n, d := VersionSpan(s), Span(s, IsDigit);
    SpanIsPrefix(s, IsDigit);
    if n == d {
      SpanOf(s[..d], [], IsDigit);
      assert s[..d] + [] == s[..d];
    } else {
      VersionSpanIsVersion(s[d + 1..]);
      SpanOf(s[..d], s[d..n], IsDigit);
      assert s[..d] + s[d..n] == s[..n];
      assert s[..n][d + 1..] == s[d + 1..][..n - d - 1];
    }
  }

  lemma {:induction false} SearchFinds(l: string, captures: string -> Groups, text: string) returns (rest: string)
    requires SearchWith(l, captures, text).Some?
    ensures SearchWith(l, captures, text) == captures(rest)
  {
    if MatchWith(l, captures, text).Some? {
      rest := text[|l|..];
    } else {
      rest := SearchFinds(l, captures, text[1..]);
    }
  }

  /** What the groups of each pattern can be. */
  predicate Captured(p: Pattern, g: (string, string)) {
    match p
    case VersionPattern => IsVersion(g.0)
    case SourcePattern =>
      g.0 != [] && (forall i | 0 <= i < |g.0| :: IsDotted(g.0[i])) && g.1 != [] && (forall i | 0 <= i < |g.1| :: IsWord(g.1[i]))
    case _ => g.0 != [] && forall i | 0 <= i < |g.0| :: IsHex(g.0[i])
  }

  lemma CapturesAreCaptured(p: Pattern, s: string)
    ensures Captures(p, s).Some? ==> Captured(p, Captures(p, s).value)
  {
    match p
    case VersionPattern => VersionSpanIsVersion(s);
    case SourcePattern =>
      var t := s[Span(s, IsSpace)..];
      var m := Span(t, IsDotted);
      SpanIsPrefix(t, IsDotted);
      if m < |t| { SpanIsPrefix(t[m + 1..], IsWord); }
    case _ => SpanIsPrefix(s[Span(s, IsSpace)..], IsHex);
  }

  lemma FoundIsCaptured(p: Pattern, text: string)
    ensures Search(p, text).Some? ==> Captured(p, Search(p, text).value)
  {
    if Search(p, text).Some? {
      var rest := SearchFinds(Literal(p), CapturesOf(p), text);
      CapturesAreCaptured(p, rest);
    }
  }

  /** A file is read as generated only if its first line says so, and what is read is a header that could have been printed. */
  lemma ParsedIsWellFormed(text: string)
    ensures Parse(text).Some? ==> WellFormed(Parse(text).value) && Contains(Split(text)[0], "# Generated by Postrule")
  {
    FoundIsCaptured(VersionPattern, text);
    FoundIsCaptured(SourcePattern, text);
    FoundIsCaptured(AstPattern, text);
    FoundIsCaptured(ContentPattern, text);
  }

  /** So whatever was read, printing it over any body and reading it again gives the same header. */
  lemma ReprintedHeaderIsTheSame(text: string, body: string)
    requires Parse(text).Some?
    ensures Parse(Above(HeaderLines(Parse(text).value), body)) == Parse(text)
  {
    ParsedIsWellFormed(text);
    ParseUndoesFormat(Parse(text).value, body);
  }

  // ---------------------------------------------------------------------------
  // Drift
  // ---------------------------------------------------------------------------

  datatype DriftStatus = UpToDate | SourceDrift | UserEdited | MissingGenerated | Orphaned

  /** write_generated_file; `hash` is the content hash. */
  function Written(hash: string -> string, version: string, mod: string, func: string, astHash: string,
                   content: string): string {
    var body := EndsWithNewline(content);
    Above(HeaderLines(Header(version, mod, func, astHash, hash(body))), body)
  }

  function EndsWithNewline(content: string): string {
    if content != [] && content[|content| - 1] == '\n' then content else content + ['\n']
  }

  /** detect_drift, given the generated text if the file exists and the source's present hash if the function does. */
  method DetectDrift(hash: string -> string, sourceHash: Option<string>, generated: Option<string>)
    returns (status: Option<DriftStatus>)
    ensures status == Drift(hash, sourceHash, generated)
  {
    if generated.None? { return Some(MissingGenerated); }
    if sourceHash.None? { return Some(Orphaned); }
    var header := Parse(generated.value);
    if header.None? { return None; }
    var _, body := SplitHeaderAndBody(generated.value);
    if hash(body) != header.value.contentHash { return Some(UserEdited); }
    if sourceHash.value != header.value.astHash { return Some(SourceDrift); }
    return Some(UpToDate);
  }

  function Drift(hash: string -> string, sourceHash: Option<string>, generated: Option<string>): Option<DriftStatus> {
    if generated.None? then Some(MissingGenerated)
    else if sourceHash.None? then Some(Orphaned)
    else
      var header := Parse(generated.value);
      if header.None? then None
      else if hash(BodyOf(generated.value)) != header.value.contentHash then Some(UserEdited)
      else if sourceHash.value != header.value.astHash then Some(SourceDrift)
      else Some(UpToDate)
  }

  /**
   What each answer of detect_drift means: no generated file at all, a file whose source is gone, a file
   whose header does not parse (an exception), and otherwise the two hashes, the body's first.
   */
  lemma DriftIff(hash: string -> string, sourceHash: Option<string>, generated: Option<string>)
    ensures var status := Drift(hash, sourceHash, generated);
            && (status == Some(MissingGenerated) <==> generated.None?)
            && (status == Some(Orphaned) <==> generated.Some? && sourceHash.None?)
            && (status == None <==> generated.Some? && sourceHash.Some? && Parse(generated.value).None?)
            && (status == Some(UserEdited) <==>
                  generated.Some? && sourceHash.Some? && Parse(generated.value).Some?
                  && hash(BodyOf(generated.value)) != Parse(generated.value).value.contentHash)
            && (status == Some(UpToDate) <==>
                  generated.Some? && sourceHash.Some? && Parse(generated.value).Some?
                  && hash(BodyOf(generated.value)) == Parse(generated.value).value.contentHash
                  && sourceHash.value == Parse(generated.value).value.astHash)
  {
  }

  lemma LastLinesAreClean()
    ensures Clean(" `postrule refresh` to") && Clean(" regenerate after the") && Clean(" source changes.")
    ensures Clean(" edits will be") && Clean(" overwritten unless") && Clean(" you pass --force.")
  {
  }

  lemma LastLineShapes()
    ensures OneHash("# Run" + (" `postrule refresh` to" + " regenerate after the" + " source changes."), 'R')
    ensures OneHash("# Manual" + (" edits will be" + " overwritten unless" + " you pass --force."), 'M')
  {
    LastLinesAreClean();
    PrefixIsOneHash("# Run", 'R', " `postrule refresh` to" + " regenerate after the" + " source changes.");
    PrefixIsOneHash("# Manual", 'M', " edits will be" + " overwritten unless" + " you pass --force.");
  }

  lemma HeaderLinesAreComments(h: Header, i: nat)
    requires WellFormed(h) && i < |HeaderLines(h)|
    ensures IsComment(HeaderLines(h)[i]) && '\n' !in HeaderLines(h)[i]
  {
    VersionLineShape(h.version);
    SourceLineShape(h.mod, h.func);
    HashLineShapes(h.astHash);
    HashLineShapes(h.contentHash);
    LastLineShapes();
    OneHashIsOneLine(HeaderLines(h)[i], ['G', 'S', 'A', 'C', 'R', 'M'][i]);
  }

  /** What detect_drift says of any text below a header it printed. */
  lemma DriftBelowHeader(hash: string -> string, sourceHash: string, h: Header, body: string)
    requires WellFormed(h)
    ensures Drift(hash, Some(sourceHash), Some(Above(HeaderLines(h), body)))
            == Some(if hash(BodyOf(body)) != h.contentHash then UserEdited
                    else if sourceHash != h.astHash then SourceDrift else UpToDate)
  {
    ParseUndoesFormat(h, body);
    forall i | 0 <= i < |HeaderLines(h)| ensures IsComment(HeaderLines(h)[i]) && '\n' !in HeaderLines(h)[i] {
      HeaderLinesAreComments(h, i);
    }
    BodyUnderComments(HeaderLines(h), body);
  }

  ghost predicate Injective(hash: string -> string) {
    forall a, b :: hash(a) == hash(b) ==> a == b
  }

  /**
   A file just written, its source unchanged, is up to date exactly when its content does not open
   with a comment: otherwise the content's leading comment lines are taken for header and the file
   is reported as edited.
   */
  lemma FreshFileIsUpToDateIff(hash: string -> string, h: Header, content: string)
    requires Injective(hash) && WellFormed(h) && h.contentHash == hash(EndsWithNewline(content))
    ensures Drift(hash, Some(h.astHash), Some(Written(hash, h.version, h.mod, h.func, h.astHash, content)))
            == Some(if IsComment(content) then UserEdited else UpToDate)
  {
    var body := EndsWithNewline(content);
    assert Written(hash, h.version, h.mod, h.func, h.astHash, content) == Above(HeaderLines(h), body);
    DriftBelowHeader(hash, h.astHash, h, body);
    BodyIsWholeIff(body);
  }

  lemma {:induction false} JoinIsAbove(lines: seq<string>, n: nat)
    requires n < |lines|
    ensures Join(lines) == Above(lines[..n], Join(lines[n..]))
  {
    if n == 0 {
      assert lines[0..] == lines;
    } else {
      JoinIsAbove(lines[1..], n - 1);
      assert lines[..n][1..] == lines[1..][..n - 1] && lines[n..] == lines[1..][n - 1..];
    }
  }

  lemma {:induction false} SplitLinesAreLines(s: string, i: nat)
    requires i < |Split(s)|
    ensures '\n' !in Split(s)[i]
  {
    if s != [] {
      var rest := Split(s[1..]);
      if s[0] == '\n' {
        if i > 0 { SplitLinesAreLines(s[1..], i - 1); }
      } else {
        SplitLinesAreLines(s[1..], i);
        if i > 0 { assert Split(s)[i] == rest[1..][i - 1]; }
      }
    }
  }

  lemma {:induction false} HeaderEndStops(lines: seq<string>)
    ensures forall i :: 0 <= i < HeaderEnd(lines) ==> IsComment(lines[i])
    ensures HeaderEnd(lines) < |lines| ==> !IsComment(lines[HeaderEnd(lines)])
  {
    if lines != [] && IsComment(lines[0]) {
      HeaderEndStops(lines[1..]);
      assert forall i :: 0 < i < |lines| ==> lines[i] == lines[1..][i - 1];
    }
  }

  lemma JoinOpens(lines: seq<string>)
    requires lines != [] && !IsComment(lines[0])
    ensures !IsComment(Join(lines))
  {
  }

  /** Only whole comment lines stand in the text above its body. */
  ghost predicate UnderComments(text: string, body: string) {
    exists lines :: CommentLines(lines) && text == Above(lines, body)
  }

  predicate CommentLines(lines: seq<string>) {
    forall i | 0 <= i < |lines| :: IsComment(lines[i]) && '\n' !in lines[i]
  }

  /** The body of a text is what stands under its leading comment lines, and never opens with one. */
  lemma BodyIsUnderComments(text: string)
    ensures BodyOf(text) != [] ==> UnderComments(text, BodyOf(text))
    ensures !IsComment(BodyOf(text))
  {
    var lines := Split(text);
    var n := HeaderEnd(lines);
    HeaderEndStops(lines);
    if n < |lines| {
      JoinUndoesSplit(text);
      JoinIsAbove(lines, n);
      JoinOpens(lines[n..]);
      forall i | 0 <= i < n ensures '\n' !in lines[i] { SplitLinesAreLines(text, i); }
      assert CommentLines(lines[..n]);
    } else {
      assert lines[n..] == [];
    }
  }

  /**
   Which hand edits below a written header are reported: all but those that leave the written body
   in place under any number of comment lines.  Content that opens with a comment is always reported.
   */
  lemma EditIsReportedIff(hash: string -> string, sourceHash: string, h: Header, content: string, edited: string)
    requires Injective(hash) && WellFormed(h) && h.contentHash == hash(EndsWithNewline(content))
    ensures Drift(hash, Some(sourceHash), Some(Above(HeaderLines(h), edited))) != Some(UserEdited)
            <==> !IsComment(content) && UnderComments(edited, EndsWithNewline(content))
  {
    var body := EndsWithNewline(content);
    DriftBelowHeader(hash, sourceHash, h, edited);
    BodyIsUnderComments(edited);
    if !IsComment(content) && UnderComments(edited, body) {
      var lines :| CommentLines(lines) && edited == Above(lines, body);
      BodyUnderComments(lines, body);
      BodyIsWholeIff(body);
    }
  }

  /** Any other body that does not open with a comment is found out. */
  lemma EditsAreDetected(hash: string -> string, sourceHash: string, h: Header, content: string, edited: string)
    requires Injective(hash) && WellFormed(h) && h.contentHash == hash(EndsWithNewline(content))
    requires !IsComment(edited) && edited != EndsWithNewline(content)
    ensures Drift(hash, Some(sourceHash), Some(Above(HeaderLines(h), edited))) == Some(UserEdited)
  {
    DriftBelowHeader(hash, sourceHash, h, edited);
    BodyIsWholeIff(edited);
  }

  /** A comment line put right under the header by hand goes unreported. */
  lemma InsertedCommentIsMissed(hash: string -> string, h: Header, content: string)
    requires Injective(hash) && WellFormed(h) && h.contentHash == hash(EndsWithNewline(content)) && !IsComment(content)
    ensures Drift(hash, Some(h.astHash), Some(Above(HeaderLines(h), "# rule disabled" + ['\n'] + EndsWithNewline(content))))
            == Some(UpToDate)
  {
    var line, body := "# rule disabled", EndsWithNewline(content);
    assert Above([line], body) == line + ['\n'] + body;
    BodyUnderComments([line], body);
    BodyIsWholeIff(body);
    DriftBelowHeader(hash, h.astHash, h, line + ['\n'] + body);
  }
}
