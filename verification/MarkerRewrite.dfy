/** Marker rewriting of `render_bench_docs.py`: the regular expression `MARKER` finds the
    generated regions of a document and `sub` replaces their bodies. */
module MarkerRewrite {
  import opened Prelude

  // ----------------------------------------------------------- marker syntax

  predicate IsNameChar(c: char) { 'a' <= c <= 'z' || '0' <= c <= '9' || c == '_' }

  predicate IsName(n: string) { n != "" && forall i | 0 <= i < |n| :: IsNameChar(n[i]) }

  function Open(n: string): (r: string)
    ensures |r| == |n| + 14
  {
    "<!-- gen:" + n + " -->\n"
  }

  function Close(n: string): (r: string)
    ensures |r| == |n| + 15
  {
    "\n<!-- /gen:" + n + " -->"
  }

  /** The longest run of name characters at the head of `s` (the greedy `[a-z0-9_]+`). */
  function NameRun(s: string): (n: string)
    ensures n <= s && forall i | 0 <= i < |n| :: IsNameChar(n[i])
    ensures |n| < |s| ==> !IsNameChar(s[|n|])
  {
    if s == "" || !IsNameChar(s[0]) then ""
    else
      assert s == [s[0]] + s[1..];
      [s[0]] + NameRun(s[1..])
  }

  /** The name of the opening marker at the head of `s`, if there is one. */
  function ReadOpen(s: string): (r: Option<string>)
    ensures r.Some? ==> |Open(r.value)| <= |s|
  {
    if "<!-- gen:" <= s then
      var n := NameRun(s[9..]);
      if n != "" && " -->\n" <= s[9 + |n|..] then Some(n) else None
    else None
  }

  /** The least offset in `t` at which the closing marker of `n` starts (the lazy `.*?`). */
  function FindClose(t: string, n: string): (k: Option<nat>)
    ensures k.Some? ==> k.value + |Close(n)| <= |t| && Close(n) <= t[k.value..]
  {
    if t == "" then None
    else if Close(n) <= t then Some(0)
    else
      var k := FindClose(t[1..], n);
      if k.None? then None else (assert t[1..][k.value..] == t[k.value + 1..]; Some(k.value + 1))
  }

  /** A document as the matcher cuts it up: copied characters and marked regions. */
  datatype Doc = End | Text(c: char, rest: Doc) | Region(name: string, body: string, rest: Doc)

  /** The match of `MARKER` at the head of `s`: the region's name and body. */
  function MatchHead(s: string): (m: Option<(string, string)>)
    ensures m.Some? ==> Width(m.value.0, m.value.1) <= |s|
  {
    var n := ReadOpen(s);
    if n.None? then None
    else
      var t := s[|Open(n.value)|..];
      var k := FindClose(t, n.value);
      if k.None? then None else Some((n.value, t[..k.value]))
  }

  function Width(n: string, b: string): nat { |Open(n)| + |b| + |Close(n)| }

  lemma MatchHeadIsMarker(s: string, n: string, b: string)
    requires MatchHead(s) == Some((n, b))
    ensures IsName(n) && s == Open(n) + b + Close(n) + s[Width(n, b)..]
  {
    ReadOpenIsOpen(s, n);
    var t := s[|Open(n)|..];
    var k := FindClose(t, n).value;
    assert b == t[..k] && k == |b|;
    assert Width(n, b) == |Open(n)| + |b| + |Close(n)|;
    Assemble(s, Open(n), b, Close(n));
  }

  lemma Assemble(s: string, open: string, b: string, close: string)
    requires open <= s && b <= s[|open|..] && close <= s[|open|..][|b|..]
    ensures s == open + b + close + s[|open| + |b| + |close|..]
  {
    var t := s[|open|..];
    assert s == open + t;
    assert t == b + t[|b|..];
    assert t[|b|..] == close + t[|b|..][|close|..];
    assert t[|b|..][|close|..] == s[|open| + |b| + |close|..];
  }

  /** Leftmost non-overlapping matches, as `re.sub` takes them. */
  function Parse(s: string): Doc
    decreases |s|
  {
    if s == "" then End
    else
      match MatchHead(s)
      case None => Text(s[0], Parse(s[1..]))
      case Some((n, b)) => Region(n, b, Parse(s[Width(n, b)..]))
  }

  function Print(d: Doc): string {
    match d
    case End => ""
    case Text(c, rest) => [c] + Print(rest)
    case Region(n, b, rest) => Open(n) + b + Close(n) + Print(rest)
  }

  /** Parsing loses nothing. */
  lemma {:induction false} PrintParse(s: string)
    ensures Print(Parse(s)) == s
    decreases |s|
  {
    if s != "" {
      match MatchHead(s)
      case None =>
        PrintParse(s[1..]);
      case Some((n, b)) =>
        MatchHeadIsMarker(s, n, b);
        PrintParse(s[Width(n, b)..]);
    }
  }

  lemma ReadOpenIsOpen(s: string, n: string)
    requires ReadOpen(s) == Some(n)
    ensures IsName(n) && Open(n) <= s
  {
    assert s == "<!-- gen:" + s[9..];
    assert s[9..] == n + s[9 + |n|..];
    assert s == "<!-- gen:" + n + s[9 + |n|..];
  }

  lemma {:induction false} NameRunStops(n: string, t: string)
    requires forall i | 0 <= i < |n| :: IsNameChar(n[i])
    requires t != "" && !IsNameChar(t[0])
    ensures NameRun(n + t) == n
  {
    if n == "" {
      assert n + t == t;
    } else {
      NameRunStops(n[1..], t);
      assert (n + t)[1..] == n[1..] + t;
    }
  }

  lemma OpenIsRead(s: string, n: string)
    requires IsName(n) && Open(n) <= s
    ensures ReadOpen(s) == Some(n)
  {
    var t := s[|Open(n)|..];
    assert s == Open(n) + t;
    assert s == "<!-- gen:" + (n + (" -->\n" + t));
    assert s[9..] == n + (" -->\n" + t);
    NameRunStops(n, " -->\n" + t);
    assert s[9 + |n|..] == " -->\n" + t;
  }

  /** `MARKER` can match at the head of `s` with this name and body. */
  predicate CanMatch(s: string, n: string, b: string) { IsName(n) && Open(n) + b + Close(n) <= s }

  lemma {:induction false} FindCloseIsLeast(t: string, n: string, j: nat)
    requires j <= |t| && Close(n) <= t[j..]
    ensures FindClose(t, n).Some? && FindClose(t, n).value <= j
  {
    if j > 0 {
      assert t[1..][j - 1..] == t[j..];
      FindCloseIsLeast(t[1..], n, j - 1);
    }
  }

  lemma MatchParts(s: string, n: string, b: string)
    requires CanMatch(s, n, b)
    ensures Open(n) <= s && |b| <= |s[|Open(n)|..]|
    ensures b <= s[|Open(n)|..] && Close(n) <= s[|Open(n)|..][|b|..]
  {
    var t := s[|Open(n) + b + Close(n)|..];
    assert s == Open(n) + b + Close(n) + t;
    hide *;
    assert s == Open(n) + (b + (Close(n) + t));
    assert s[|Open(n)|..] == b + (Close(n) + t);
    assert (b + (Close(n) + t))[|b|..] == Close(n) + t;
  }

  lemma MatchIsPossible(s: string, n: string, b: string)
    requires MatchHead(s) == Some((n, b))
    ensures CanMatch(s, n, b) && ReadOpen(s) == Some(n)
  {
    MatchHeadIsMarker(s, n, b);
    hide MatchHead, Open, Close, IsName;
    assert Open(n) + b + Close(n) <= s;
    MatchParts(s, n, b);
    OpenIsRead(s, n);
  }

  lemma PossibleMatchIsNotShorter(s: string, n: string, c: string)
    requires CanMatch(s, n, c)
    ensures MatchHead(s).Some? && MatchHead(s).value.0 == n && |MatchHead(s).value.1| <= |c|
  {
    MatchParts(s, n, c);
    assert IsName(n);
    OpenIsRead(s, n);
    FindCloseIsLeast(s[|Open(n)|..], n, |c|);
    hide Open, Close, IsName, FindClose, ReadOpen, CanMatch;
  }

  lemma SameStart(s: string, n: string, b: string, c: string)
    requires CanMatch(s, n, b) && CanMatch(s, n, c) && |b| == |c|
    ensures b == c
  {
    hide *;
    MatchParts(s, n, b);
    MatchParts(s, n, c);
  }

  /** The head match is the one with the shortest body, as `.*?` asks for; the name cannot vary. */
  lemma MatchHeadExactly(s: string, n: string, b: string)
    ensures MatchHead(s) == Some((n, b)) <==>
            CanMatch(s, n, b) && forall c: string | CanMatch(s, n, c) :: |b| <= |c|
  {
    hide *;
    if MatchHead(s) == Some((n, b)) {
      MatchIsPossible(s, n, b);
      forall c: string | CanMatch(s, n, c) ensures |b| <= |c| {
        PossibleMatchIsNotShorter(s, n, c);
      }
    }
    if CanMatch(s, n, b) && forall c: string | CanMatch(s, n, c) :: |b| <= |c| {
      PossibleMatchIsNotShorter(s, n, b);
      var c := MatchHead(s).value.1;
      MatchIsPossible(s, n, c);
      SameStart(s, n, b, c);
    }
  }

  // -------------------------------------------------------------- rewriting

  type Tables = map<string, string>

  predicate Known(d: Doc, tables: Tables) {
    match d
    case End => true
    case Text(_, rest) => Known(rest, tables)
    case Region(n, _, rest) => n in tables && Known(rest, tables)
  }

  function Body(tables: Tables, n: string): string { if n in tables then tables[n] else "" }

  function Regenerate(d: Doc, tables: Tables): Doc {
    match d
    case End => End
    case Text(c, rest) => Text(c, Regenerate(rest, tables))
    case Region(n, _, rest) => Region(n, Body(tables, n), Regenerate(rest, tables))
  }

  /** The first unknown name met, which ends the script. */
  function FirstUnknown(d: Doc, tables: Tables): string
    requires !Known(d, tables)
  {
    match d
    case Text(_, rest) => FirstUnknown(rest, tables)
    case Region(n, _, rest) => if n in tables then FirstUnknown(rest, tables) else n
  }

  /** The names of the regions whose body differs from the generated one, in order. */
  function Stale(d: Doc, tables: Tables): seq<string> {
    match d
    case End => []
    case Text(_, rest) => Stale(rest, tables)
    case Region(n, b, rest) => (if b != Body(tables, n) then [n] else []) + Stale(rest, tables)
  }

  function Names(d: Doc): set<string> {
    match d
    case End => {}
    case Text(_, rest) => Names(rest)
    case Region(n, _, rest) => {n} + Names(rest)
  }

  function Output(s: string, tables: Tables): string { Print(Regenerate(Parse(s), tables)) }

  /** What the substitution makes of a document, or the unknown marker it stops at. */
  function Rewrite(s: string, tables: Tables): Result<string, string> {
    if Known(Parse(s), tables) then Ok(Output(s, tables)) else Err(FirstUnknown(Parse(s), tables))
  }

  /** The script ends exactly when some region carries a name without a table, and names such a one. */
  lemma RewriteFailsExactly(s: string, tables: Tables)
    ensures Rewrite(s, tables).Err? <==> exists n :: n in Names(Parse(s)) && n !in tables
    ensures Rewrite(s, tables).Err? ==> Rewrite(s, tables).error in Names(Parse(s)) - tables.Keys
  {
    KnownExactly(Parse(s), tables);
    if !Known(Parse(s), tables) { UnknownIsNamed(Parse(s), tables); }
  }

  lemma {:induction false} KnownExactly(d: Doc, tables: Tables)
    ensures Known(d, tables) <==> forall n | n in Names(d) :: n in tables
  {
    match d
    case End =>
    case Text(_, rest) => KnownExactly(rest, tables);
    case Region(n, _, rest) => KnownExactly(rest, tables);
  }

  lemma {:induction false} UnknownIsNamed(d: Doc, tables: Tables)
    requires !Known(d, tables)
    ensures FirstUnknown(d, tables) in Names(d) && FirstUnknown(d, tables) !in tables
  {
    match d
    case Text(_, rest) => UnknownIsNamed(rest, tables);
    case Region(n, _, rest) => if n in tables { UnknownIsNamed(rest, tables); }
  }

  lemma Associate(a: string, b: string, c: string)
    ensures a + b + c == a + (b + c)
  {
  }

  lemma ParseEmpty()
    ensures Parse("") == End
  {
  }

  lemma CopyStep(s: string, tables: Tables)
    requires s != "" && MatchHead(s).None?
    ensures Output(s, tables) == [s[0]] + Output(s[1..], tables)
    ensures Known(Parse(s), tables) <==> Known(Parse(s[1..]), tables)
    ensures Parse(s) == Text(s[0], Parse(s[1..]))
  {
  }

  lemma RegionStep(s: string, n: string, b: string, tables: Tables)
    requires MatchHead(s) == Some((n, b))
    ensures IsName(n)
    ensures s == Open(n) + b + Close(n) + s[Width(n, b)..]
    ensures Output(s, tables) == Open(n) + Body(tables, n) + Close(n) + Output(s[Width(n, b)..], tables)
    ensures Known(Parse(s), tables) <==> n in tables && Known(Parse(s[Width(n, b)..]), tables)
    ensures Parse(s) == Region(n, b, Parse(s[Width(n, b)..]))
  {
    MatchHeadIsMarker(s, n, b);
    assert s != "";
  }

  /** The substitution has come from `whole` to its rest `d`. */
  ghost predicate Progress(whole: Doc, d: Doc, out: string, stale: seq<string>, seen: set<string>, tables: Tables) {
    && (Known(whole, tables) <==> Known(d, tables))
    && (!Known(whole, tables) ==> FirstUnknown(whole, tables) == FirstUnknown(d, tables))
    && Print(Regenerate(whole, tables)) == out + Print(Regenerate(d, tables))
    && Stale(whole, tables) == stale + Stale(d, tables)
    && Names(whole) == seen + Names(d)
  }

  lemma CopyProgress(whole: Doc, d: Doc, out: string, stale: seq<string>, seen: set<string>, tables: Tables)
    requires Progress(whole, d, out, stale, seen, tables) && d.Text?
    ensures Progress(whole, d.rest, out + [d.c], stale, seen, tables)
  {
    Associate(out, [d.c], Print(Regenerate(d.rest, tables)));
  }

  lemma RegionProgress(whole: Doc, d: Doc, out: string, stale: seq<string>, seen: set<string>, tables: Tables)
    requires Progress(whole, d, out, stale, seen, tables) && d.Region? && d.name in tables
    ensures Progress(whole, d.rest, out + (Open(d.name) + tables[d.name] + Close(d.name)),
                     if d.body != tables[d.name] then stale + [d.name] else stale, seen + {d.name}, tables)
  {
    hide Open, Close;
    Associate(out, Open(d.name) + tables[d.name] + Close(d.name), Print(Regenerate(d.rest, tables)));
    assert stale + ([d.name] + Stale(d.rest, tables)) == stale + [d.name] + Stale(d.rest, tables);
    assert stale + ([] + Stale(d.rest, tables)) == stale + Stale(d.rest, tables);
  }

  lemma UnknownStops(whole: Doc, d: Doc, out: string, stale: seq<string>, seen: set<string>, tables: Tables)
    requires Progress(whole, d, out, stale, seen, tables) && d.Region? && d.name !in tables
    ensures !Known(whole, tables) && FirstUnknown(whole, tables) == d.name
  {
  }

  lemma ProgressEnds(whole: Doc, out: string, stale: seq<string>, seen: set<string>, tables: Tables)
    requires Progress(whole, End, out, stale, seen, tables)
    ensures Known(whole, tables) && out == Print(Regenerate(whole, tables))
    ensures stale == Stale(whole, tables) && seen == Names(whole)
  {
    assert out + "" == out;
  }

  lemma ProgressStarts(whole: Doc, tables: Tables)
    ensures Progress(whole, whole, "", [], {}, tables)
  {
  }

  /** `MARKER.sub(sub, src)` with the two collections that `sub` updates. */
  method RewriteDocument(src: string, tables: Tables)
    returns (r: Result<string, string>, stale: seq<string>, seen: set<string>)
    ensures r == Rewrite(src, tables)
    ensures r.Ok? ==> stale == Stale(Parse(src), tables) && seen == Names(Parse(src))
  {
    hide Parse, MatchHead, Open, Close, Width, Progress, Stale, Names;
    var out, i := "", 0;
    stale, seen := [], {};
    assert src[0..] == src;
    ghost var whole, d := Parse(src), Parse(src);
    ProgressStarts(whole, tables);
    while i < |src|
      invariant 0 <= i <= |src|
      invariant d == Parse(src[i..]) && Progress(whole, d, out, stale, seen, tables)
    {
      var m := MatchHead(src[i..]);
      if m.None? {
        CopyStep(src[i..], tables);
        CopyProgress(whole, d, out, stale, seen, tables);
        assert src[i..][1..] == src[i + 1..];
        out := out + [src[i]];
        i := i + 1;
      } else {
        var (name, previous) := m.value;
        RegionStep(src[i..], name, previous, tables);
        if name !in tables {
          UnknownStops(whole, d, out, stale, seen, tables);
          r := Err(name);
          return;
        }
        RegionProgress(whole, d, out, stale, seen, tables);
        seen := seen + {name};
        var body := tables[name];
        if previous != body {
          stale := stale + [name];
        }
        assert src[i..][Width(name, previous)..] == src[i + Width(name, previous)..];
        out := out + (Open(name) + body + Close(name));
        i := i + Width(name, previous);
      }
      d := d.rest;
    }
    ParseEmpty();
    assert src[i..] == "" && d == End;
    ProgressEnds(whole, out, stale, seen, tables);
    r := Ok(out);
  }

  // ----------------------------------------------- where closing markers can be

  predicate HasClose(t: string, n: string) {
    t != "" && (Close(n) <= t || HasClose(t[1..], n))
  }

  lemma {:induction false} FindsCloseIffThere(t: string, n: string)
    ensures FindClose(t, n).Some? <==> HasClose(t, n)
  {
    if t != "" { FindsCloseIffThere(t[1..], n); }
  }

  /** What must hold of the generated bodies: no body holds its own closing marker, and no
      body, taken with the line break in front of it, holds the closing marker of another name. */
  ghost predicate SafeBody(n: string, body: string) {
    && !HasClose(body, n)
    && forall x: string | IsName(x) && x != n :: !HasClose("\n" + body, x)
  }

  ghost predicate SafeTables(tables: Tables) {
    forall n | n in tables && IsName(n) :: SafeBody(n, tables[n])
  }

  predicate NoBreak(p: string) { '\n' !in p }

  lemma NameHasNoBreak(n: string)
    requires IsName(n)
    ensures NoBreak(n) && '<' !in n
    ensures NoBreak(Close(n)[1..])
    ensures Open(n) == ("<!-- gen:" + n + " -->") + "\n" && NoBreak("<!-- gen:" + n + " -->")
    ensures '<' !in Open(n)[1..]
  {
    forall i | 0 <= i < |n| ensures n[i] != '\n' && n[i] != '<' { assert IsNameChar(n[i]); }
    assert Close(n)[1..] == "<!-- /gen:" + n + " -->";
    assert Open(n)[1..] == "!-- gen:" + n + " -->\n";
  }

  lemma SameCloseSameName(x: string, n: string, t: string)
    requires IsName(x) && IsName(n) && Close(x) <= Close(n) + t
    ensures x == n
  {
    var u := (Close(n) + t)[|Close(x)|..];
    assert Close(n) + t == Close(x) + u;
    assert (Close(n) + t)[11..] == n + (" -->" + t);
    assert (Close(x) + u)[11..] == x + (" -->" + u);
    NameRunStops(n, " -->" + t);
    NameRunStops(x, " -->" + u);
  }

  lemma {:induction false} CloseSkipsLine(p: string, t: string, x: string)
    requires NoBreak(p)
    ensures HasClose(p + t, x) <==> HasClose(t, x)
  {
    if p == "" {
      assert p + t == t;
    } else {
      CloseSkipsLine(p[1..], t, x);
      assert (p + t)[1..] == p[1..] + t;
      assert (p + t)[0] == p[0] && Close(x)[0] == '\n';
    }
  }

  lemma CloseWithinFirst(a: string, t: string, close: string)
    requires a != "" && t != "" && t[0] == '\n' && close != "" && NoBreak(close[1..])
    ensures close <= a + t <==> close <= a
  {
    if |a| < |close| {
      assert close[|a|] == close[1..][|a| - 1] != '\n';
      assert (a + t)[|a|] == '\n';
    }
  }

  lemma {:induction false} CloseBeforeBreak(a: string, t: string, x: string)
    requires IsName(x) && t != "" && t[0] == '\n'
    ensures HasClose(a + t, x) ==> HasClose(a, x) || HasClose(t, x)
  {
    if a == "" {
      assert a + t == t;
    } else {
      CloseBeforeBreak(a[1..], t, x);
      assert (a + t)[1..] == a[1..] + t;
      NameHasNoBreak(x);
      CloseWithinFirst(a, t, Close(x));
    }
  }

  lemma {:induction false} CloseInSuffix(a: string, t: string, x: string)
    requires HasClose(t, x)
    ensures HasClose(a + t, x)
  {
    if a == "" {
      assert a + t == t;
    } else {
      CloseInSuffix(a[1..], t, x);
      assert (a + t)[1..] == a[1..] + t;
    }
  }

  /** A closing marker in a rendered region is the region's own or comes after it. */
  lemma CloseInRegion(n: string, body: string, t: string, x: string)
    requires IsName(n) && IsName(x) && SafeBody(n, body)
    ensures HasClose(Open(n) + body + Close(n) + t, x) ==> x == n || HasClose(t, x)
  {
    NameHasNoBreak(n);
    var head := "<!-- gen:" + n + " -->";
    var tail := Close(n) + t;
    assert Open(n) + body + Close(n) + t == head + ("\n" + body + tail);
    CloseSkipsLine(head, "\n" + body + tail, x);
    CloseBeforeBreak("\n" + body, tail, x);
    assert tail[1..] == Close(n)[1..] + t;
    CloseSkipsLine(Close(n)[1..], t, x);
    if Close(x) <= tail { SameCloseSameName(x, n, t); }
  }

  /** The closing marker found behind a safe body is the one that follows it. */
  lemma {:induction false} FindCloseBehind(body: string, n: string, t: string)
    requires IsName(n) && !HasClose(body, n)
    ensures FindClose(body + Close(n) + t, n) == Some(|body|)
  {
    hide *;
    if body == "" {
      FindCloseHere(n, t);
      assert body + Close(n) + t == Close(n) + t;
    } else {
      NoCloseStep(body, n);
      FindCloseBehind(body[1..], n, t);
      NameHasNoBreak(n);
      CloseBreaks(n);
      CloseWithinFirst(body, Close(n) + t, Close(n));
      Rejoin(body, Close(n), t);
      FindCloseLater(body[0], body[1..] + Close(n) + t, n);
    }
  }

  lemma Rejoin(a: string, b: string, c: string)
    requires a != ""
    ensures a + b + c == a + (b + c) == [a[0]] + (a[1..] + b + c)
  {
    assert a == [a[0]] + a[1..];
  }

  lemma FindCloseHere(n: string, t: string)
    ensures FindClose(Close(n) + t, n) == Some(0)
  {
  }

  lemma NoCloseStep(body: string, n: string)
    requires body != "" && !HasClose(body, n)
    ensures !(Close(n) <= body) && !HasClose(body[1..], n)
  {
  }

  lemma CloseBreaks(n: string)
    ensures Close(n) != "" && Close(n)[0] == '\n'
  {
  }

  lemma FindCloseLater(c: char, t: string, n: string)
    requires !(Close(n) <= [c] + t)
    ensures FindClose(t, n).None? ==> FindClose([c] + t, n).None?
    ensures FindClose(t, n).Some? ==> FindClose([c] + t, n) == Some(1 + FindClose(t, n).value)
  {
    assert ([c] + t)[1..] == t;
  }

  // ------------------------------------------- the first line never changes

  function FirstLine(s: string): string {
    if s == "" then "" else if s[0] == '\n' then "\n" else [s[0]] + FirstLine(s[1..])
  }

  lemma {:induction false} FirstLineOf(p: string, t: string)
    requires NoBreak(p)
    ensures FirstLine(p + t) == p + FirstLine(t)
  {
    if p == "" {
      assert p + t == t;
    } else {
      FirstLineOf(p[1..], t);
      assert (p + t)[1..] == p[1..] + t;
    }
  }

  lemma {:induction false} PrefixInFirstLine(p: string, s: string)
    requires forall i | 0 <= i < |p| - 1 :: p[i] != '\n'
    ensures p <= s <==> p <= FirstLine(s)
  {
    if p != "" && s != "" && p[0] == s[0] {
      if s[0] == '\n' {
        assert |p| == 1;
      } else {
        PrefixInFirstLine(p[1..], s[1..]);
        assert p <= s <==> p[1..] <= s[1..];
        assert FirstLine(s)[1..] == FirstLine(s[1..]);
      }
    }
  }

  lemma EmptyOutput(tables: Tables)
    ensures Output("", tables) == "" && Known(Parse(""), tables)
  {
  }

  lemma WidthShrinks(n: string, b: string)
    ensures Width(n, b) > 0
  {
  }

  lemma {:induction false} SameFirstLine(s: string, tables: Tables)
    ensures FirstLine(Output(s, tables)) == FirstLine(s)
    decreases |s|
  {
    EmptyOutput(tables);
    hide *;
    if s == "" {
    } else if MatchHead(s).None? {
      CopyStep(s, tables);
      FirstLineStep(s[0], s[1..]);
      FirstLineStep(s[0], Output(s[1..], tables));
      assert s == [s[0]] + s[1..];
      SameFirstLine(s[1..], tables);
    } else {
      var (n, b) := MatchHead(s).value;
      RegionStep(s, n, b, tables);
      WidthShrinks(n, b);
      var rest := s[Width(n, b)..];
      FirstLineOfRegion(n, b, rest);
      FirstLineOfRegion(n, Body(tables, n), Output(rest, tables));
    }
  }

  lemma FirstLineOfRegion(n: string, b: string, t: string)
    requires IsName(n)
    ensures FirstLine(Open(n) + b + Close(n) + t) == Open(n)
  {
    FirstLineIsOpen(n, b + Close(n) + t);
    hide *;
    assert Open(n) + b + Close(n) + t == Open(n) + (b + Close(n) + t);
  }

  lemma FirstLineStep(c: char, t: string)
    ensures FirstLine([c] + t) == if c == '\n' then "\n" else [c] + FirstLine(t)
  {
    assert ([c] + t)[1..] == t;
  }

  lemma FirstLineIsOpen(n: string, t: string)
    requires IsName(n)
    ensures FirstLine(Open(n) + t) == Open(n)
  {
    NameHasNoBreak(n);
    var head := "<!-- gen:" + n + " -->";
    FirstLineOf(head, "\n" + t);
    assert Open(n) + t == head + ("\n" + t);
  }

  lemma SameOpen(s: string, tables: Tables)
    ensures ReadOpen(Output(s, tables)) == ReadOpen(s)
  {
    var out := Output(s, tables);
    SameFirstLine(s, tables);
    if ReadOpen(s).Some? {
      var n := ReadOpen(s).value;
      ReadOpenIsOpen(s, n);
      OpenStaysOnLine(n, s);
      OpenStaysOnLine(n, out);
      OpenIsRead(out, n);
    } else if ReadOpen(out).Some? {
      var n := ReadOpen(out).value;
      ReadOpenIsOpen(out, n);
      OpenStaysOnLine(n, s);
      OpenStaysOnLine(n, out);
      OpenIsRead(s, n);
    }
  }

  lemma OpenStaysOnLine(n: string, s: string)
    requires IsName(n)
    ensures Open(n) <= s <==> Open(n) <= FirstLine(s)
  {
    NameHasNoBreak(n);
    var head := "<!-- gen:" + n + " -->";
    forall i | 0 <= i < |Open(n)| - 1 ensures Open(n)[i] != '\n' { assert Open(n)[i] == head[i]; }
    PrefixInFirstLine(Open(n), s);
  }

  // --------------------------------------------------------------- stability

  /** Rewriting creates no closing marker that was not there. */
  lemma {:induction false} NoNewClose(s: string, tables: Tables, x: string)
    requires SafeTables(tables) && Known(Parse(s), tables) && IsName(x)
    ensures HasClose(Output(s, tables), x) ==> HasClose(s, x)
    decreases |s|
  {
    if s == "" {
    } else if MatchHead(s).None? {
      CopyStep(s, tables);
      CopiedCharMakesNoClose(s[0], s[1..], tables, x);
      assert s == [s[0]] + s[1..];
      hide *;
      NoNewClose(s[1..], tables, x);
    } else {
      var (n, b) := MatchHead(s).value;
      RegionStep(s, n, b, tables);
      assert SafeBody(n, tables[n]) && Body(tables, n) == tables[n];
      hide *;
      var rest := s[Width(n, b)..];
      NoNewClose(rest, tables, x);
      CloseInRegion(n, tables[n], Output(rest, tables), x);
      if x == n { CloseHere(Open(n) + b, n, rest); }
      if HasClose(rest, x) { CloseInSuffix(Open(n) + b + Close(n), rest, x); }
    }
  }

  lemma CopiedCharMakesNoClose(c: char, t: string, tables: Tables, x: string)
    requires IsName(x)
    ensures HasClose([c] + Output(t, tables), x) ==> HasClose([c] + t, x) || HasClose(Output(t, tables), x)
  {
    var u := Output(t, tables);
    SameFirstLine(t, tables);
    NameHasNoBreak(x);
    var close := Close(x)[1..];
    assert Close(x) == ['\n'] + close;
    HasCloseStep(c, t, x);
    HasCloseStep(c, u, x);
    hide *;
    PrefixInFirstLine(close, t);
    PrefixInFirstLine(close, u);
  }

  lemma HasCloseStep(c: char, t: string, x: string)
    ensures HasClose([c] + t, x) <==> (c == '\n' && Close(x)[1..] <= t) || HasClose(t, x)
  {
    assert ([c] + t)[1..] == t;
    assert Close(x)[0] == '\n' && Close(x) == ['\n'] + Close(x)[1..];
  }

  lemma CloseHere(a: string, n: string, t: string)
    ensures HasClose(a + Close(n) + t, n)
  {
    assert Close(n) <= Close(n) + t;
    CloseInSuffix(a, Close(n) + t, n);
    assert a + Close(n) + t == a + (Close(n) + t);
  }

  lemma MatchStartsWithAngle(s: string)
    ensures MatchHead(s).Some? ==> s != "" && s[0] == '<'
  {
  }

  /** No match starts in text without `<`. */
  lemma {:induction false} PlainTextIsCopied(p: string, t: string, tables: Tables)
    requires '<' !in p
    ensures Output(p + t, tables) == p + Output(t, tables)
    ensures Known(Parse(p + t), tables) <==> Known(Parse(t), tables)
  {
    hide *;
    if p == "" {
      assert p + t == t;
    } else {
      var s := p + t;
      assert s[0] == p[0] && s[1..] == p[1..] + t;
      MatchStartsWithAngle(s);
      CopyStep(s, tables);
      PlainTextIsCopied(p[1..], t, tables);
    }
  }

  /** Where the matcher copied a character it copies it again from the output. */
  lemma StillNoMatch(s: string, tables: Tables)
    requires SafeTables(tables) && Known(Parse(s), tables)
    requires s != "" && MatchHead(s).None?
    ensures MatchHead(Output(s, tables)).None?
  {
    SameOpen(s, tables);
    if ReadOpen(s).Some? {
      var n := ReadOpen(s).value;
      ReadOpenIsOpen(s, n);
      var u := s[|Open(n)|..];
      OpenWithoutClose(s, n);
      CopyStep(s, tables);
      OpenIsCopied(s, n, tables);
      NoNewClose(u, tables, n);
      OpenWithoutClose(Output(s, tables), n);
    }
  }

  /** Behind an opening marker there is a match exactly when its closing marker follows. */
  lemma OpenWithoutClose(s: string, n: string)
    requires ReadOpen(s) == Some(n)
    ensures MatchHead(s).None? <==> !HasClose(s[|Open(n)|..], n)
  {
    FindsCloseIffThere(s[|Open(n)|..], n);
  }

  lemma OpenIsCopied(s: string, n: string, tables: Tables)
    requires IsName(n) && Open(n) <= s && MatchHead(s).None?
    ensures Output(s, tables) == Open(n) + Output(s[|Open(n)|..], tables)
    ensures Known(Parse(s), tables) <==> Known(Parse(s[|Open(n)|..]), tables)
    ensures Output(s, tables)[|Open(n)|..] == Output(s[|Open(n)|..], tables)
  {
    hide *;
    NameHasNoBreak(n);
    var u := s[|Open(n)|..];
    assert s != "";
    CopyStep(s, tables);
    assert s[1..] == Open(n)[1..] + u;
    assert s[0] == Open(n)[0];
    PlainTextIsCopied(Open(n)[1..], u, tables);
    assert Open(n) == [s[0]] + Open(n)[1..];
  }

  /** The output of a rewrite is cut up exactly like its input, with the bodies replaced:
      same copied text, same regions in the same order. */
  lemma {:induction false} OutputParsesAlike(s: string, tables: Tables)
    requires SafeTables(tables) && Known(Parse(s), tables)
    ensures Parse(Output(s, tables)) == Regenerate(Parse(s), tables)
    decreases |s|
  {
    if s == "" {
    } else if MatchHead(s).None? {
      StillNoMatch(s, tables);
      CopyStep(s, tables);
      CopyStep(Output(s, tables), tables);
      OutputParsesAlike(s[1..], tables);
    } else {
      var (n, b) := MatchHead(s).value;
      var rest := s[Width(n, b)..];
      RegionStep(s, n, b, tables);
      assert SafeBody(n, tables[n]) && Body(tables, n) == tables[n];
      RenderedRegionIsRead(n, tables[n], Output(rest, tables));
      RegionStep(Output(s, tables), n, tables[n], tables);
      OutputParsesAlike(rest, tables);
    }
  }

  /** Behind an opening marker the body runs to the closing marker that is found first. */
  lemma ReadRegion(n: string, t: string, k: nat)
    requires IsName(n) && FindClose(t, n) == Some(k)
    ensures MatchHead(Open(n) + t) == Some((n, t[..k]))
    ensures Width(n, t[..k]) == |Open(n)| + k + |Close(n)|
    ensures (Open(n) + t)[Width(n, t[..k])..] == t[k + |Close(n)|..]
  {
    var s := Open(n) + t;
    OpenIsRead(s, n);
    assert s[|Open(n)|..] == t;
    hide Open, Close, FindClose, ReadOpen, IsName;
    assert s[|Open(n)| + (k + |Close(n)|)..] == t[k + |Close(n)|..];
  }

  /** A region with a safe body is read back as that region. */
  lemma RenderedRegionIsRead(n: string, body: string, t: string)
    requires IsName(n) && !HasClose(body, n)
    ensures MatchHead(Open(n) + body + Close(n) + t) == Some((n, body))
    ensures (Open(n) + body + Close(n) + t)[Width(n, body)..] == t
  {
    hide *;
    var u := body + Close(n) + t;
    FindCloseBehind(body, n, t);
    ReadRegion(n, u, |body|);
    assert Open(n) + body + Close(n) + t == Open(n) + u;
    CutThree(body, Close(n), t);
  }

  lemma CutThree(a: string, b: string, c: string)
    ensures (a + b + c)[..|a|] == a && (a + b + c)[|a| + |b|..] == c
  {
    assert a + b + c == a + (b + c);
  }

  // ------------------------------------------------------------ main results

  lemma {:induction false} RegeneratedIsFresh(d: Doc, tables: Tables)
    requires Known(d, tables)
    ensures Known(Regenerate(d, tables), tables)
    ensures Regenerate(Regenerate(d, tables), tables) == Regenerate(d, tables)
    ensures Stale(Regenerate(d, tables), tables) == []
    ensures Stale(d, tables) == [] <==> Regenerate(d, tables) == d
  {
    if !d.End? { RegeneratedIsFresh(d.rest, tables); }
  }

  /** A document with its generated bodies taken out: what rewriting must not touch. */
  function Skeleton(d: Doc): Doc {
    match d
    case End => End
    case Text(c, rest) => Text(c, Skeleton(rest))
    case Region(n, _, rest) => Region(n, "", Skeleton(rest))
  }

  lemma {:induction false} RegenerateKeepsSkeleton(d: Doc, tables: Tables)
    ensures Skeleton(Regenerate(d, tables)) == Skeleton(d)
  {
    if !d.End? { RegenerateKeepsSkeleton(d.rest, tables); }
  }

  /** With safe bodies: rewriting twice is rewriting once, the second pass finds nothing
      stale, everything outside the bodies is unchanged, and the stale list is empty exactly
      when the output equals the input (which is when `--check` accepts the document). */
  lemma RewriteIsStable(s: string, tables: Tables)
    requires SafeTables(tables) && Rewrite(s, tables).Ok?
    ensures var out := Rewrite(s, tables).value;
            && Rewrite(out, tables) == Ok(out)
            && Stale(Parse(out), tables) == []
            && Skeleton(Parse(out)) == Skeleton(Parse(s))
            && (Stale(Parse(s), tables) == [] <==> out == s)
  {
    OutputParsesAlike(s, tables);
    RegeneratedIsFresh(Parse(s), tables);
    RegenerateKeepsSkeleton(Parse(s), tables);
    PrintParse(s);
  }

  /** Rewriting the output of a rewrite gives that output again, for every document. */
  ghost predicate AlwaysStable(tables: Tables) {
    forall s | Rewrite(s, tables).Ok? :: Rewrite(Output(s, tables), tables) == Ok(Output(s, tables))
  }

  lemma {:induction false} OutputIsEmptyOnlyForEmpty(s: string, tables: Tables)
    ensures Output(s, tables) == "" <==> s == ""
  {
    if s != "" {
      if MatchHead(s).None? {
        CopyStep(s, tables);
      } else {
        RegionStep(s, MatchHead(s).value.0, MatchHead(s).value.1, tables);
      }
    }
  }

  /** The one-region document around the body of `n`. */
  lemma LoneRegion(n: string, tables: Tables)
    requires n in tables && IsName(n)
    ensures Rewrite(Open(n) + Close(n), tables) == Ok(Open(n) + tables[n] + Close(n))
  {
    var s := Open(n) + "" + Close(n) + "";
    assert s == Open(n) + Close(n);
    RenderedRegionIsRead(n, "", "");
    RegionStep(s, n, "", tables);
    assert s[Width(n, "")..] == "";
    assert Open(n) + Body(tables, n) + Close(n) + "" == Open(n) + tables[n] + Close(n);
  }

  /** A body holding its own closing marker is cut short by the next pass. */
  lemma OwnCloseIsUnstable(n: string, tables: Tables)
    requires n in tables && IsName(n) && HasClose(tables[n], n)
    ensures !AlwaysStable(tables)
  {
    var src, out := Open(n) + Close(n), Open(n) + tables[n] + Close(n);
    LoneRegion(n, tables);
    assert Rewrite(src, tables).Ok? && Output(src, tables) == out;
    CutShort(n, tables[n], tables);
    hide Parse, MatchHead, Open, Close, Output, Known;
    assert Rewrite(out, tables) != Ok(out);
  }

  lemma CutShort(n: string, body: string, tables: Tables)
    requires IsName(n) && HasClose(body, n)
    requires n in tables && tables[n] == body
    ensures var out := Open(n) + body + Close(n); Output(out, tables) != out
  {
    hide *;
    var t := body + Close(n);
    var out := Open(n) + t;
    var k := FindCloseInside(body, Close(n), n);
    ReadRegion(n, t, k);
    RegionStep(out, n, t[..k], tables);
    var rest := t[k + |Close(n)|..];
    OutputIsEmptyOnlyForEmpty(rest, tables);
    BodyOf(n, tables);
    assert Open(n) + body + Close(n) == out;
    assert Output(out, tables) == out + Output(rest, tables);
  }

  lemma BodyOf(n: string, tables: Tables)
    requires n in tables
    ensures Body(tables, n) == tables[n]
  {
  }

  lemma {:induction false} FindCloseInside(body: string, t: string, n: string) returns (k: nat)
    requires HasClose(body, n)
    ensures FindClose(body + t, n) == Some(k) && k + |Close(n)| <= |body|
  {
    if Close(n) <= body {
      assert Close(n) <= body + t;
      k := 0;
    } else {
      var rest := FindCloseInside(body[1..], t, n);
      assert (body + t)[1..] == body[1..] + t;
      k := if Close(n) <= body + t then 0 else rest + 1;
    }
  }

  lemma FindCloseStep(c: char, t: string, x: string)
    requires c != '\n' && FindClose(t, x).Some?
    ensures FindClose([c] + t, x) == Some(1 + FindClose(t, x).value)
  {
    assert ([c] + t)[1..] == t;
    assert ([c] + t)[0] != Close(x)[0];
  }

  lemma {:induction false} FindCloseSkipsLine(y: string, t: string, x: string)
    requires NoBreak(y) && HasClose(t, x)
    ensures FindClose(t, x).Some? && FindClose(y + t, x) == Some(|y| + FindClose(t, x).value)
  {
    FindsCloseIffThere(t, x);
    hide Close, HasClose, FindClose;
    if y == "" {
      assert y + t == t;
    } else {
      FindCloseSkipsLine(y[1..], t, x);
      FindCloseStep(y[0], y[1..] + t, x);
      assert y + t == [y[0]] + (y[1..] + t);
    }
  }

  /** An opening marker of `x` that nothing closes, some text, and a region of `a`. */
  function Unclosed(x: string, y: string, region: string): string { Open(x) + (y + region) }

  lemma UnclosedFirstPass(x: string, y: string, a: string, tables: Tables)
    requires IsName(x) && IsName(a) && x != a && a in tables && NoBreak(y) && '<' !in y
    ensures Rewrite(Unclosed(x, y, Open(a) + Close(a)), tables)
         == Ok(Unclosed(x, y, Open(a) + tables[a] + Close(a)))
  {
    var region := Open(a) + Close(a);
    var s := Open(x) + (y + region);
    NoCloseInEmptyRegion(a, x);
    hide Open, Close, Parse, MatchHead, ReadOpen, HasClose;
    OpenIsRead(s, x);
    assert s[|Open(x)|..] == y + region;
    CloseSkipsLine(y, region, x);
    OpenWithoutClose(s, x);
    OpenIsCopied(s, x, tables);
    PlainTextIsCopied(y, region, tables);
    LoneRegion(a, tables);
  }

  lemma NoCloseInEmptyRegion(a: string, x: string)
    requires IsName(a) && IsName(x) && x != a
    ensures !HasClose(Open(a) + Close(a), x)
  {
    forall z: string ensures !HasClose("\n" + "", z) {
      assert "\n" + "" == "\n" && |Close(z)| > 1;
      assert "\n"[1..] == "";
    }
    CloseInRegion(a, "", "", x);
    assert Open(a) + "" + Close(a) + "" == Open(a) + Close(a);
  }

  lemma UnclosedUnfolds(x: string, y: string, region: string)
    ensures Unclosed(x, y, region) == Open(x) + (y + region)
  {
  }

  lemma RewrittenIsOutput(s: string, tables: Tables)
    requires Rewrite(s, tables).Ok?
    ensures Known(Parse(s), tables) && Rewrite(s, tables).value == Output(s, tables)
  {
  }

  /** If the second pass leaves that document alone, the body of `x` must be as long as
      whatever now stands between the two markers of `x`. */
  lemma UnclosedSecondPass(x: string, y: string, region: string, tables: Tables)
    requires IsName(x) && NoBreak(y) && HasClose(region, x)
    requires x in tables ==> !HasClose(tables[x], x)
    requires Rewrite(Unclosed(x, y, region), tables) == Ok(Unclosed(x, y, region))
    ensures x in tables && FindClose(region, x).Some?
    ensures |tables[x]| == |y| + FindClose(region, x).value
  {
    hide *;
    FindCloseSkipsLine(y, region, x);
    var t := y + region;
    var k := FindClose(t, x).value;
    var out := Open(x) + t;
    ReadRegion(x, t, k);
    RegionStep(out, x, t[..k], tables);
    UnclosedUnfolds(x, y, region);
    RewrittenIsOutput(out, tables);
    BodyOf(x, tables);
    var rest := Output(t[k + |Close(x)|..], tables);
    assert Open(x) + t == Open(x) + (tables[x] + Close(x) + rest);
    assert t == (Open(x) + t)[|Open(x)|..] == tables[x] + Close(x) + rest;
    FindCloseBehind(tables[x], x, rest);
  }

  /** A body holding the closing marker of another name closes a marker left open before. */
  lemma OtherCloseIsUnstable(a: string, x: string, tables: Tables)
    requires a in tables && IsName(a) && IsName(x) && x != a && HasClose("\n" + tables[a], x)
    requires x in tables ==> !HasClose(tables[x], x)
    ensures !AlwaysStable(tables)
  {
    var region := Open(a) + tables[a] + Close(a);
    CloseShowsInRegion(a, tables[a], x);
    UnclosedFirstPass(x, "", a, tables);
    UnclosedFirstPass(x, "z", a, tables);
    if AlwaysStable(tables) {
      StableAt(Unclosed(x, "", Open(a) + Close(a)), tables);
      StableAt(Unclosed(x, "z", Open(a) + Close(a)), tables);
      UnclosedSecondPass(x, "", region, tables);
      UnclosedSecondPass(x, "z", region, tables);
      assert false;
    }
  }

  lemma StableAt(s: string, tables: Tables)
    requires AlwaysStable(tables) && Rewrite(s, tables).Ok?
    ensures Rewrite(Rewrite(s, tables).value, tables) == Rewrite(s, tables)
  {
  }

  lemma CloseShowsInRegion(a: string, body: string, x: string)
    requires HasClose("\n" + body, x)
    ensures HasClose(Open(a) + body + Close(a), x)
  {
    var head := "<!-- gen:" + a + " -->";
    CloseInPrefix("\n" + body, Close(a), x);
    CloseInSuffix(head, "\n" + body + Close(a), x);
    assert Open(a) + body + Close(a) == head + ("\n" + body + Close(a));
  }

  lemma {:induction false} CloseInPrefix(t: string, u: string, x: string)
    requires HasClose(t, x)
    ensures HasClose(t + u, x)
  {
    assert (t + u)[1..] == t[1..] + u;
    if Close(x) <= t {
      assert Close(x) <= t + u;
    } else {
      CloseInPrefix(t[1..], u, x);
    }
  }

  /** Rewriting is stable on every document exactly when the generated bodies are safe. */
  lemma StableExactlyWhenSafe(tables: Tables)
    ensures AlwaysStable(tables) <==> SafeTables(tables)
  {
    if SafeTables(tables) {
      forall s | Rewrite(s, tables).Ok?
        ensures Rewrite(Output(s, tables), tables) == Ok(Output(s, tables))
      {
        RewriteIsStable(s, tables);
      }
    } else {
      var a :| a in tables && IsName(a) && !SafeBody(a, tables[a]);
      if HasClose(tables[a], a) {
        OwnCloseIsUnstable(a, tables);
      } else {
        var x: string :| IsName(x) && x != a && HasClose("\n" + tables[a], x);
        if x in tables && HasClose(tables[x], x) {
          OwnCloseIsUnstable(x, tables);
        } else {
          OtherCloseIsUnstable(a, x, tables);
        }
      }
    }
  }
}
