// internal/database/fingerprint.go: the scanner that reduces schema.sql to the text whose hash decides
// whether the cache database is rebuilt. Every char stands for one byte; the scanner only ever compares
// bytes with ASCII characters.
module Fingerprint {
  import opened Options

  // ---- Lexemes ----

  /** What the scanner consumes at one position: a gap (whitespace or a comment) or a token copied verbatim. */
  datatype Lexeme = Gap(n: nat) | Text(n: nat)

  /** One token of the normalised stream; `spaced` is set when a single space separates it from the one before. */
  datatype Token = Token(spaced: bool, text: string)

  predicate SelfDelimiting(c: char) {
    c == '(' || c == ')' || c == ',' || c == ';'
  }

  predicate IsSpace(c: char) {
    c == ' ' || c == '\t' || c == '\n' || c == '\r'
  }

  predicate IsQuote(c: char) {
    c == '\'' || c == '"' || c == '`'
  }

  /** Length of a line comment: up to, not including, the newline. */
  function LineEnd(s: string): (n: nat)
    ensures n <= |s|
  {
    if s == [] || s[0] == '\n' then 0 else 1 + LineEnd(s[1..])
  }

  /** Length of the rest of a block comment; an unterminated one runs to the end of the input. */
  function BlockEnd(s: string): (n: nat)
    ensures n <= |s|
  {
    if s == [] then 0
    else if s[0] == '*' && |s| > 1 && s[1] == '/' then 2
    else 1 + BlockEnd(s[1..])
  }

  /** Length of the rest of a quoted run; a doubled closer is an escape, an unterminated run takes everything. */
  function QuoteEnd(s: string, closer: char): (n: nat)
    ensures n <= |s|
    ensures n < |s| ==> n > 0 && s[n - 1] == closer && s[n] != closer
  {
    if s == [] then 0
    else if s[0] != closer then 1 + QuoteEnd(s[1..], closer)
    else if |s| > 1 && s[1] == closer then 2 + QuoteEnd(s[2..], closer)
    else 1
  }

  /** The lexeme at the front of the input: the arms of the scanner's switch, in their order. */
  function First(s: string): (l: Lexeme)
    requires s != []
    ensures 0 < l.n <= |s|
  {
    var c := s[0];
    if c == '-' && |s| > 1 && s[1] == '-' then Gap(LineEnd(s))
    else if c == '/' && |s| > 1 && s[1] == '*' then Gap(2 + BlockEnd(s[2..]))
    else if IsSpace(c) then Gap(1)
    else if IsQuote(c) then Text(1 + QuoteEnd(s[1..], c))
    else if c == '[' then Text(1 + QuoteEnd(s[1..], ']'))
    else Text(1)
  }

  /** The normalised token stream of the remaining input, after a token ending in `last` (None: at the start). */
  function Tokens(s: string, last: Option<char>, pending: bool): seq<Token>
    decreases |s|
  {
    if s == [] then []
    else match First(s)
      case Gap(n) => Tokens(s[n..], last, last.Some?)
      case Text(n) =>
        [Token(pending && last.Some? && !SelfDelimiting(last.value) && !SelfDelimiting(s[0]), s[..n])]
        + Tokens(s[n..], Some(s[n - 1]), false)
  }

  function Parse(s: string): seq<Token> {
    Tokens(s, None, false)
  }

  function Print(ts: seq<Token>): string {
    if ts == [] then [] else (if ts[0].spaced then " " else "") + ts[0].text + Print(ts[1..])
  }

  // ---- The printed stream scans back to itself ----

  lemma DropOfAppend(a: string, x: string, k: nat)
    requires k <= |a|
    ensures (a + x)[k..] == a[k..] + x
    ensures (a + x)[..k] == a[..k]
  {
  }

  lemma {:induction false} QuoteEndStable(q: string, rest: string, closer: char, tail: string)
    requires rest != [] && QuoteEnd(q + rest, closer) == |q|
    requires tail == [] || tail[0] != closer
    ensures QuoteEnd(q + tail, closer) == |q|
    decreases |q|
  {
    if q[0] != closer {
      DropOfAppend(q, rest, 1);
      DropOfAppend(q, tail, 1);
      QuoteEndStable(q[1..], rest, closer, tail);
    } else if |q| > 1 {
      assert (q + rest)[1] == q[1];
      DropOfAppend(q, rest, 2);
      DropOfAppend(q, tail, 2);
      QuoteEndStable(q[2..], rest, closer, tail);
    }
  }

  /** Whatever the printer may put after a token q that `rest` followed: nothing, the byte that stood there,
      a space, or a byte next to which a gap is dropped. */
  predicate MayFollow(q: string, rest: string, tail: string)
    requires q != []
  {
    tail == []
    || (rest != [] && (tail[0] == rest[0] || tail[0] == ' ' || SelfDelimiting(tail[0]) || SelfDelimiting(q[|q| - 1])))
  }

  lemma FirstStable(q: string, rest: string, tail: string)
    requires q != [] && First(q + rest) == Text(|q|) && MayFollow(q, rest, tail)
    ensures First(q + tail) == Text(|q|)
  {
    if rest == [] {
      assert q + tail == q + rest;
    } else if IsQuote(q[0]) || q[0] == '[' {
      var closer := if q[0] == '[' then ']' else q[0];
      DropOfAppend(q, rest, 1);
      DropOfAppend(q, tail, 1);
      assert QuoteEnd(q[1..] + rest, closer) == |q[1..]|;
      QuoteEndStable(q[1..], rest, closer, tail);
    } else {
      assert |q| == 1;
    }
  }

  lemma {:induction false} PrintedHead(s: string, last: char, pending: bool)
    ensures var p := Print(Tokens(s, Some(last), pending));
            p == []
            || (s != [] && ((!pending && p[0] == s[0]) || p[0] == ' ' || SelfDelimiting(p[0]) || SelfDelimiting(last)))
    decreases |s|
  {
    if s != [] {
      if First(s).Gap? {
        PrintedHead(s[First(s).n..], last, true);
      } else {
        var ts := Tokens(s, Some(last), pending);
        assert ts[0].text[0] == s[0];
      }
    }
  }

  /** Scanning q + rest when q is one token. */
  lemma TokensOfText(q: string, rest: string, last: Option<char>, pending: bool)
    requires q != [] && First(q + rest) == Text(|q|)
    ensures Tokens(q + rest, last, pending)
         == [Token(pending && last.Some? && !SelfDelimiting(last.value) && !SelfDelimiting(q[0]), q)]
            + Tokens(rest, Some(q[|q| - 1]), false)
  {
    DropOfAppend(q, rest, |q|);
    assert (q + rest)[|q|..] == rest && (q + rest)[..|q|] == q;
  }

  lemma TokensOfSpace(p: string, last: Option<char>, pending: bool)
    ensures Tokens(" " + p, last, pending) == Tokens(p, last, last.Some?)
  {
    assert First(" " + p) == Lexeme.Gap(1);
    assert (" " + p)[1..] == p;
  }

  lemma PrintOfCons(t: Token, ts: seq<Token>)
    ensures Print([t] + ts) == (if t.spaced then " " else "") + (t.text + Print(ts))
  {
    assert ([t] + ts)[1..] == ts;
  }

  /** The scanner run over printed tokens yields those tokens, from any scanner state. */
  lemma {:induction false} Rescan(s: string, last: Option<char>, pending: bool)
    ensures Tokens(Print(Tokens(s, last, pending)), last, false) == Tokens(s, last, pending)
    decreases |s|
  {
    if s != [] {
      var n := First(s).n;
      var q, rest := s[..n], s[n..];
      assert s == q + rest;
      if First(s).Gap? {
        Rescan(rest, last, last.Some?);
      } else {
        var last' := Some(q[n - 1]);
        var ts := Tokens(rest, last', false);
        var t := Token(pending && last.Some? && !SelfDelimiting(last.value) && !SelfDelimiting(q[0]), q);
        TokensOfText(q, rest, last, pending);
        PrintOfCons(t, ts);
        Rescan(rest, last', false);
        PrintedHead(rest, q[n - 1], false);
        FirstStable(q, rest, Print(ts));
        TokensOfText(q, Print(ts), last, t.spaced);
        if t.spaced {
          TokensOfSpace(q + Print(ts), last, false);
        } else {
          assert [] + (q + Print(ts)) == q + Print(ts);
        }
      }
    }
  }

  function Scrubbed(s: string): string {
    Print(Parse(s))
  }

  /** The scrubbed text parses to the token stream of the original. */
  lemma ParseOfScrubbed(s: string)
    ensures Parse(Scrubbed(s)) == Parse(s)
  {
    Rescan(s, None, false);
  }

  lemma ScrubIdempotent(s: string)
    ensures Scrubbed(Scrubbed(s)) == Scrubbed(s)
  {
    ParseOfScrubbed(s);
  }

  /** Two schemas scrub alike exactly when they are the same token stream: nothing load-bearing is dropped. */
  lemma ScrubEqualIffSameTokens(s: string, t: string)
    ensures Scrubbed(s) == Scrubbed(t) <==> Parse(s) == Parse(t)
  {
    ParseOfScrubbed(s);
    ParseOfScrubbed(t);
  }

  // ---- Comments and whitespace runs are interchangeable ----

  /** The scanner, run over the input, stops at position k (it is not inside a lexeme there). */
  predicate StopsAt(s: string, k: nat)
    requires k <= |s|
    decreases |s|
  {
    k == 0 || (First(s).n <= k && StopsAt(s[First(s).n..], k - First(s).n))
  }

  /** Everything consumed up to position k is a gap. */
  predicate GapsTo(s: string, k: nat)
    requires k <= |s|
    decreases |s|
  {
    k == 0 || (First(s).Gap? && First(s).n <= k && GapsTo(s[First(s).n..], k - First(s).n))
  }

  lemma {:induction false} LineEndWithin(a: string, x: string, y: string)
    requires LineEnd(a + x) <= |a|
    requires LineEnd(a + y) <= |a|
    ensures LineEnd(a + x) == LineEnd(a + y)
  {
    if a != [] && a[0] != '\n' {
      DropOfAppend(a, x, 1);
      DropOfAppend(a, y, 1);
      LineEndWithin(a[1..], x, y);
    }
  }

  lemma {:induction false} BlockEndWithin(a: string, x: string, y: string)
    requires BlockEnd(a + x) <= |a|
    requires BlockEnd(a + y) <= |a|
    ensures BlockEnd(a + x) == BlockEnd(a + y)
  {
    if |a| == 1 {
      assert (a + x)[1..] == x && (a + y)[1..] == y;
    } else if |a| > 1 && !(a[0] == '*' && a[1] == '/') {
      DropOfAppend(a, x, 1);
      DropOfAppend(a, y, 1);
      BlockEndWithin(a[1..], x, y);
    }
  }

  lemma {:induction false} QuoteEndWithin(a: string, x: string, y: string, closer: char)
    requires QuoteEnd(a + x, closer) <= |a|
    requires QuoteEnd(a + y, closer) <= |a|
    ensures QuoteEnd(a + x, closer) == QuoteEnd(a + y, closer)
    decreases |a|
  {
    if a == [] {
    } else if a[0] != closer {
      DropOfAppend(a, x, 1);
      DropOfAppend(a, y, 1);
      QuoteEndWithin(a[1..], x, y, closer);
    } else if |a| > 1 && a[1] == closer {
      DropOfAppend(a, x, 2);
      DropOfAppend(a, y, 2);
      assert (a + x)[1] == closer && (a + y)[1] == closer;
      QuoteEndWithin(a[2..], x, y, closer);
    } else if |a| > 1 {
      assert (a + x)[1] == a[1] && (a + y)[1] == a[1];
    }
  }

  /** A lexeme that ends inside the common prefix does not depend on what follows the prefix. */
  lemma FirstWithin(a: string, x: string, y: string)
    requires a != []
    requires First(a + x).n <= |a| && First(a + y).n <= |a|
    ensures First(a + x) == First(a + y)
  {
    DropOfAppend(a, x, 1);
    DropOfAppend(a, y, 1);
    if IsQuote(a[0]) {
      QuoteEndWithin(a[1..], x, y, a[0]);
    } else if a[0] == '[' {
      QuoteEndWithin(a[1..], x, y, ']');
    } else if |a| > 1 {
      assert (a + x)[1] == a[1] && (a + y)[1] == a[1];
      if a[0] == '-' && a[1] == '-' {
        LineEndWithin(a, x, y);
      } else if a[0] == '/' && a[1] == '*' {
        DropOfAppend(a, x, 2);
        DropOfAppend(a, y, 2);
        BlockEndWithin(a[2..], x, y);
      }
    } else if a[0] == '-' {
      assert (a + x)[1..] == x && (a + y)[1..] == y;
      assert x != [] && x[0] == '-' ==> LineEnd(a + x) >= 1 + LineEnd(x) > 1;
      assert y != [] && y[0] == '-' ==> LineEnd(a + y) >= 1 + LineEnd(y) > 1;
    }
  }

  /** The scanner's memory: the last byte written, and whether a gap is held open. */
  datatype Memory = Memory(last: Option<char>, pending: bool)

  function After(s: string, k: nat, m: Memory): Memory
    requires k <= |s| && StopsAt(s, k)
    decreases |s|
  {
    if k == 0 then m
    else
      var n := First(s).n;
      After(s[n..], k - n, Past(s, m))
  }

  /** The memory past the first lexeme. */
  function Past(s: string, m: Memory): Memory
    requires s != []
  {
    if First(s).Gap? then Memory(m.last, m.last.Some?) else Memory(Some(s[First(s).n - 1]), false)
  }

  function Scan(s: string, m: Memory): seq<Token> {
    Tokens(s, m.last, m.pending)
  }

  lemma {:induction false} SkipGaps(g: string, b: string, m: Memory)
    requires g != [] && GapsTo(g + b, |g|)
    ensures Scan(g + b, m) == Scan(b, Memory(m.last, m.last.Some?))
    decreases |g|
  {
    var n := First(g + b).n;
    DropOfAppend(g, b, n);
    if n == |g| {
      assert g[n..] + b == b;
    } else {
      SkipGaps(g[n..], b, Memory(m.last, m.last.Some?));
    }
  }

  /** The first lexeme of a prefix at which the scanner stops. */
  lemma PrefixStep(a: string, x: string, m: Memory)
    requires a != [] && StopsAt(a + x, |a|)
    ensures var n := First(a + x).n;
            && n <= |a| && StopsAt(a[n..] + x, |a| - n)
            && After(a + x, |a|, m) == After(a[n..] + x, |a| - n, Past(a + x, m))
            && Scan(a + x, m) == HeadToken(a + x, m) + Scan(a[n..] + x, Past(a + x, m))
  {
    DropOfAppend(a, x, First(a + x).n);
  }

  function HeadToken(s: string, m: Memory): seq<Token>
    requires s != []
  {
    if First(s).Gap? then []
    else [Token(m.pending && m.last.Some? && !SelfDelimiting(m.last.value) && !SelfDelimiting(s[0]), s[..First(s).n])]
  }

  lemma SameHead(a: string, x: string, y: string, m: Memory)
    requires a != [] && First(a + x) == First(a + y) && First(a + x).n <= |a|
    ensures HeadToken(a + x, m) == HeadToken(a + y, m) && Past(a + x, m) == Past(a + y, m)
  {
    var n := First(a + x).n;
    DropOfAppend(a, x, n);
    DropOfAppend(a, y, n);
    assert (a + x)[n - 1] == a[n - 1] == (a + y)[n - 1] && (a + x)[0] == a[0] == (a + y)[0];
  }

  /** Two continuations that scan alike after the prefix scan alike with the prefix in front. */
  lemma {:induction false} SamePrefix(a: string, x: string, y: string, m: Memory)
    requires StopsAt(a + x, |a|) && StopsAt(a + y, |a|)
    ensures After(a + x, |a|, m) == After(a + y, |a|, m)
    ensures Scan(x, After(a + x, |a|, m)) == Scan(y, After(a + x, |a|, m)) ==> Scan(a + x, m) == Scan(a + y, m)
    decreases |a|
  {
    if a == [] {
      assert a + x == x && a + y == y;
    } else {
      PrefixStep(a, x, m);
      PrefixStep(a, y, m);
      FirstWithin(a, x, y);
      SameHead(a, x, y, m);
      SamePrefix(a[First(a + x).n..], x, y, Past(a + x, m));
    }
  }

  const Start := Memory(None, false)

  /** Replacing one run of comments and whitespace by any other leaves the scrubbed text unchanged. */
  lemma GapsInterchange(a: string, g: string, h: string, b: string)
    requires g != [] && GapsTo(g + b, |g|)
    requires h != [] && GapsTo(h + b, |h|)
    requires StopsAt(a + (g + b), |a|) && StopsAt(a + (h + b), |a|)
    ensures Scrubbed(a + (g + b)) == Scrubbed(a + (h + b))
  {
    var m := After(a + (g + b), |a|, Start);
    SamePrefix(a, g + b, h + b, Start);
    SkipGaps(g, b, m);
    SkipGaps(h, b, m);
  }

  /** Removing a gap beside one of the four delimiters, or at either end of the text, changes nothing. */
  lemma GapBesideDelimiter(a: string, g: string, b: string)
    requires g != [] && GapsTo(g + b, |g|)
    requires StopsAt(a + (g + b), |a|) && StopsAt(a + b, |a|)
    requires var last := After(a + b, |a|, Start).last;
             last.None? || SelfDelimiting(last.value) || b == [] || SelfDelimiting(b[0])
    ensures Scrubbed(a + (g + b)) == Scrubbed(a + b)
  {
    var m := After(a + b, |a|, Start);
    SamePrefix(a, g + b, b, Start);
    SkipGaps(g, b, m);
  }

  // ---- The lexemes in SQL's terms ----

  lemma WhitespaceIsGap(c: char, b: string)
    requires c in {' ', '\t', '\n', '\r'}
    ensures GapsTo([c] + b, 1)
  {
    assert First([c] + b) == Lexeme.Gap(1);
  }

  lemma {:induction false} LineEndOf(x: string, b: string)
    requires '\n' !in x && (b == [] || b[0] == '\n')
    ensures LineEnd(x + b) == |x|
  {
    if x != [] {
      assert (x + b)[1..] == x[1..] + b;
      LineEndOf(x[1..], b);
    } else {
      assert x + b == b;
    }
  }

  /** A line comment is a gap up to its newline, or to the end of the text. */
  lemma LineCommentIsGap(x: string, b: string)
    requires '\n' !in x && (b == [] || b[0] == '\n')
    ensures GapsTo(("--" + x) + b, 2 + |x|)
  {
    LineEndOf("--" + x, b);
    assert First(("--" + x) + b) == Lexeme.Gap(2 + |x|);
  }

  predicate NoCloser(x: string) {
    (forall i :: 0 <= i < |x| - 1 ==> !(x[i] == '*' && x[i + 1] == '/')) && (x != [] ==> x[|x| - 1] != '*')
  }

  lemma {:induction false} BlockEndOf(x: string, b: string)
    requires NoCloser(x)
    ensures BlockEnd((x + "*/") + b) == |x| + 2
  {
    var s := (x + "*/") + b;
    if x == [] {
      assert s == "*/" + b && s[0] == '*' && s[1] == '/';
    } else {
      assert s[1..] == (x[1..] + "*/") + b;
      assert |x| > 1 ==> s[1] == x[1];
      var y := x[1..];
      assert forall i :: 0 <= i < |y| ==> y[i] == x[i + 1];
      BlockEndOf(x[1..], b);
    }
  }

  lemma {:induction false} BlockEndOpen(x: string)
    requires forall i :: 0 <= i < |x| - 1 ==> !(x[i] == '*' && x[i + 1] == '/')
    ensures BlockEnd(x) == |x|
  {
    if x != [] {
      var y := x[1..];
      assert forall i :: 0 <= i < |y| ==> y[i] == x[i + 1];
      BlockEndOpen(x[1..]);
    }
  }

  /** A block comment is a gap up to its first closer, or to the end of the text without one. */
  lemma BlockCommentIsGap(x: string, b: string)
    ensures NoCloser(x) ==> GapsTo(("/*" + (x + "*/")) + b, |x| + 4)
    ensures (forall i :: 0 <= i < |x| - 1 ==> !(x[i] == '*' && x[i + 1] == '/')) ==> GapsTo("/*" + x, |x| + 2)
  {
    if NoCloser(x) {
      var s := ("/*" + (x + "*/")) + b;
      BlockEndOf(x, b);
      assert s[2..] == (x + "*/") + b;
      assert First(s) == Lexeme.Gap(|x| + 4);
    }
    if forall i :: 0 <= i < |x| - 1 ==> !(x[i] == '*' && x[i + 1] == '/') {
      BlockEndOpen(x);
      assert ("/*" + x)[2..] == x;
      assert First("/*" + x) == Lexeme.Gap(|x| + 2);
    }
  }

  /** One whitespace character, a line comment before its newline, or a block comment. */
  ghost predicate Blank(g: string, b: string) {
    || (|g| == 1 && g[0] in {' ', '\t', '\n', '\r'})
    || (exists x :: g == "--" + x && '\n' !in x && (b == [] || b[0] == '\n'))
    || (exists x :: g == "/*" + (x + "*/") && NoCloser(x))
  }

  lemma BlankIsGap(g: string, b: string)
    requires Blank(g, b)
    ensures g != [] && GapsTo(g + b, |g|)
  {
    if |g| == 1 && g[0] in {' ', '\t', '\n', '\r'} {
      WhitespaceIsGap(g[0], b);
      assert g == [g[0]];
    } else if x :| g == "--" + x && '\n' !in x && (b == [] || b[0] == '\n') {
      LineCommentIsGap(x, b);
    } else {
      var x :| g == "/*" + (x + "*/") && NoCloser(x);
      BlockCommentIsGap(x, b);
    }
  }

  /** Any of these in place of a single space leaves the scrubbed text as it is. */
  lemma BlankIsOneSpace(a: string, g: string, b: string)
    requires Blank(g, b) && StopsAt(a + (g + b), |a|) && StopsAt(a + (" " + b), |a|)
    ensures Scrubbed(a + (g + b)) == Scrubbed(a + (" " + b))
  {
    WhitespaceIsGap(' ', b);
    BlankIsGap(g, b);
    GapsInterchange(a, g, " ", b);
  }

  /** No whitespace, no quote or bracket, and nothing that opens a comment. */
  predicate Plain(s: string) {
    && (forall i :: 0 <= i < |s| ==> s[i] !in {' ', '\t', '\n', '\r', '\'', '"', '`', '['})
    && (forall i :: 0 <= i < |s| - 1 ==> !(s[i] == '-' && s[i + 1] == '-') && !(s[i] == '/' && s[i + 1] == '*'))
  }

  lemma PlainFirst(s: string, b: string)
    requires Plain(s) && s != [] && (b == [] || b[0] == ' ')
    ensures First(s + b) == Text(1)
  {
    var all := s + b;
    assert all[0] == s[0] && (|all| > 1 ==> all[1] == if |s| > 1 then s[1] else b[0]);
  }

  lemma OneCharPrints(s: string, b: string, last: Option<char>)
    requires s != [] && First(s + b) == Text(1)
    ensures Print(Tokens(s + b, last, false)) == [s[0]] + Print(Tokens(s[1..] + b, Some(s[0]), false))
  {
    var c, rest := s[0], s[1..] + b;
    assert s + b == [c] + rest;
    TokensOfText([c], rest, last, false);
    PrintOfCons(Token(false, [c]), Tokens(rest, Some(c), false));
  }

  lemma PlainTail(s: string)
    requires Plain(s) && s != []
    ensures Plain(s[1..])
  {
    var t := s[1..];
    assert forall i :: 0 <= i < |t| ==> t[i] == s[i + 1];
  }

  /** Plain text is copied, and what follows it -- nothing, or a space -- is scanned after its last character. */
  lemma {:induction false} PlainPrints(s: string, b: string, last: Option<char>)
    requires Plain(s) && s != [] && (b == [] || b[0] == ' ')
    ensures Print(Tokens(s + b, last, false)) == s + Print(Tokens(b, Some(s[|s| - 1]), false))
    decreases |s|
  {
    PlainFirst(s, b);
    OneCharPrints(s, b, last);
    if |s| == 1 {
      assert s[1..] + b == b;
    } else {
      PlainTail(s);
      PlainPrints(s[1..], b, Some(s[0]));
      Glue(s, Print(Tokens(b, Some(s[|s| - 1]), false)));
    }
  }

  lemma Glue(s: string, tail: string)
    requires s != []
    ensures [s[0]] + (s[1..] + tail) == s + tail
  {
  }

  lemma PlainPrintsPending(t: string, last: char)
    requires Plain(t) && t != []
    ensures Print(Tokens(t, Some(last), true))
         == (if last in {'(', ')', ',', ';'} || t[0] in {'(', ')', ',', ';'} then "" else " ") + t
  {
    var q, rest := [t[0]], t[1..];
    assert t == q + rest && t + [] == t;
    PlainFirst(t, []);
    TokensOfText(q, rest, Some(last), true);
    var spaced := !SelfDelimiting(last) && !SelfDelimiting(t[0]);
    PrintOfCons(Token(spaced, q), Tokens(rest, Some(t[0]), false));
    if rest != [] {
      PlainTail(t);
      PlainPrints(rest, [], Some(t[0]));
      assert rest + [] == rest;
    }
  }

  /** Plain text scrubs to itself. */
  lemma PlainIsKept(s: string)
    requires Plain(s)
    ensures Scrubbed(s) == s
  {
    if s != [] {
      PlainPrints(s, [], None);
      assert s + [] == s;
    }
  }

  lemma SpacePrints(t: string, last: char)
    requires Plain(t) && t != []
    ensures Print(Tokens(" " + t, Some(last), false))
         == (if last in {'(', ')', ',', ';'} || t[0] in {'(', ')', ',', ';'} then "" else " ") + t
  {
    TokensOfSpace(t, Some(last), false);
    PlainPrintsPending(t, last);
  }

  /** A space between two pieces of plain text stays, unless one of the four delimiters stands beside it. */
  lemma SpaceIsKeptIff(s: string, t: string)
    requires Plain(s) && Plain(t) && s != [] && t != []
    ensures Scrubbed(s + (" " + t))
         == s + ((if s[|s| - 1] in {'(', ')', ',', ';'} || t[0] in {'(', ')', ',', ';'} then "" else " ") + t)
  {
    PlainPrints(s, " " + t, None);
    SpacePrints(t, s[|s| - 1]);
  }

  /** The inside of a quoted run, every closer doubled. */
  function Doubled(q: string, closer: char): string {
    if q == [] then [] else (if q[0] == closer then [closer, closer] else [q[0]]) + Doubled(q[1..], closer)
  }

  lemma {:induction false} QuoteEndOf(q: string, closer: char, b: string)
    requires b == [] || b[0] != closer
    ensures QuoteEnd((Doubled(q, closer) + [closer]) + b, closer) == |Doubled(q, closer)| + 1
  {
    var s := (Doubled(q, closer) + [closer]) + b;
    if q == [] {
      assert s == [closer] + b;
    } else {
      QuoteEndOf(q[1..], closer, b);
      var rest := (Doubled(q[1..], closer) + [closer]) + b;
      if q[0] == closer {
        assert s == [closer, closer] + rest && s[2..] == rest;
      } else {
        assert s == [q[0]] + rest && s[1..] == rest;
      }
    }
  }

  /** A string literal or a quoted identifier with any contents is one token. */
  lemma QuotedIsOneToken(opener: char, q: string, b: string)
    requires opener in {'\'', '"', '`', '['}
    ensures var closer := if opener == '[' then ']' else opener;
            (b == [] || b[0] != closer) ==>
              First(([opener] + (Doubled(q, closer) + [closer])) + b) == Text(|Doubled(q, closer)| + 2)
  {
    var closer := if opener == '[' then ']' else opener;
    if b == [] || b[0] != closer {
      QuoteEndOf(q, closer, b);
      assert (([opener] + (Doubled(q, closer) + [closer])) + b)[1..] == (Doubled(q, closer) + [closer]) + b;
    }
  }

  // ---- Quoted runs survive ----

  lemma {:induction false} TokenAt(a: string, x: string, m: Memory) returns (i: nat)
    requires x != [] && First(x).Text? && StopsAt(a + x, |a|)
    ensures i < |Scan(a + x, m)| && Scan(a + x, m)[i].text == x[..First(x).n]
    decreases |a|
  {
    if a == [] {
      assert a + x == x;
      i := 0;
    } else {
      var l := First(a + x);
      DropOfAppend(a, x, l.n);
      i := TokenAt(a[l.n..], x, if l.Gap? then Memory(m.last, m.last.Some?) else Memory(Some((a + x)[l.n - 1]), false));
      i := if l.Gap? then i else i + 1;
    }
  }

  lemma {:induction false} PrintHolds(ts: seq<Token>, i: nat) returns (before: string, behind: string)
    requires i < |ts|
    ensures Print(ts) == before + ts[i].text + behind
  {
    var gap := if ts[0].spaced then " " else "";
    if i == 0 {
      before, behind := gap, Print(ts[1..]);
    } else {
      var b;
      b, behind := PrintHolds(ts[1..], i - 1);
      before := gap + ts[0].text + b;
      Reassociate(gap + ts[0].text, b, ts[i].text, behind);
      assert (b + ts[i].text) + behind == b + (ts[i].text + behind);
    }
  }

  /** A string literal or quoted identifier reaches the scrubbed text byte for byte, doubled closers and all. */
  lemma QuotedRunSurvives(a: string, x: string) returns (before: string, behind: string)
    requires x != [] && (IsQuote(x[0]) || x[0] == '[') && StopsAt(a + x, |a|)
    ensures var n := 1 + QuoteEnd(x[1..], if x[0] == '[' then ']' else x[0]);
            Scrubbed(a + x) == before + x[..n] + behind
  {
    var i := TokenAt(a, x, Start);
    before, behind := PrintHolds(Parse(a + x), i);
  }

  // ---- The imperative scanner ----

  /** The output builder: the text so far, its last byte, and a gap held open until something follows it. */
  class Builder {
    var b: string
    var last: char
    var pending: bool

    constructor ()
      ensures b == [] && !pending
    {
      b, last, pending := [], '\0', false;
    }

    method Gap()
      modifies this
      ensures b == old(b) && last == old(last) && pending == (b != [])
    {
      pending := |b| > 0;
    }

    method Write(tok: string)
      requires tok != []
      requires pending ==> b != []
      modifies this
      ensures b == old(b) + Spacer(old(pending), old(last), tok[0]) + tok
      ensures last == tok[|tok| - 1] && !pending
    {
      if pending {
        if !SelfDelimiting(last) && !SelfDelimiting(tok[0]) {
          b := b + " ";
        }
        pending := false;
      }
      b := b + tok;
      last := tok[|tok| - 1];
    }
  }

  method EndOfQuoted(sql: string, start: nat, closer: char) returns (end: nat)
    requires start < |sql|
    ensures end == start + 1 + QuoteEnd(sql[start + 1..], closer)
  {
    var i := start + 1;
    while i < |sql|
      invariant start + 1 <= i <= |sql|
      invariant i + QuoteEnd(sql[i..], closer) == start + 1 + QuoteEnd(sql[start + 1..], closer)
    {
      assert sql[i..][1..] == sql[i + 1..];
      if sql[i] != closer {
        i := i + 1;
        continue;
      }
      if i + 1 < |sql| && sql[i + 1] == closer {
        assert sql[i..][2..] == sql[i + 2..];
        i := i + 2;
        continue;
      }
      return i + 1;
    }
    end := |sql|;
  }

  lemma Reassociate(b: string, gap: string, q: string, p: string)
    ensures b + (gap + (q + p)) == ((b + gap) + q) + p
  {
  }

  function Spacer(pending: bool, last: char, next: char): string {
    if pending && !SelfDelimiting(last) && !SelfDelimiting(next) then " " else ""
  }

  /** The loop's progress: the text so far, followed by what the rest of the input still prints, is the answer. */
  ghost predicate Prints(goal: string, rest: string, b: string, last: char, pending: bool) {
    b + Print(Tokens(rest, if b == [] then None else Some(last), pending)) == goal
  }

  lemma PrintsGap(goal: string, s: string, n: nat, b: string, last: char, pending: bool)
    requires s != [] && First(s) == Lexeme.Gap(n) && Prints(goal, s, b, last, pending)
    ensures Prints(goal, s[n..], b, last, b != [])
  {
  }

  lemma PrintsText(goal: string, q: string, rest: string, b: string, last: char, pending: bool)
    requires q != [] && First(q + rest) == Text(|q|) && Prints(goal, q + rest, b, last, pending)
    requires pending ==> b != []
    ensures Prints(goal, rest, (b + Spacer(pending, last, q[0])) + q, q[|q| - 1], false)
  {
    var l := if b == [] then None else Some(last);
    TokensOfText(q, rest, l, pending);
    var ts := Tokens(rest, Some(q[|q| - 1]), false);
    var gap := Spacer(pending, last, q[0]);
    var t := Token(gap != [], q);
    assert Tokens(q + rest, l, pending) == [t] + ts;
    PrintOfCons(t, ts);
    Reassociate(b, gap, q, Print(ts));
  }

  method SkipLineComment(sql: string, start: nat) returns (end: nat)
    requires start <= |sql|
    ensures end == start + LineEnd(sql[start..])
  {
    end := start;
    while end < |sql| && sql[end] != '\n'
      invariant start <= end <= |sql|
      invariant end + LineEnd(sql[end..]) == start + LineEnd(sql[start..])
    {
      assert sql[end..][1..] == sql[end + 1..];
      end := end + 1;
    }
  }

  method SkipBlockComment(sql: string, start: nat) returns (end: nat)
    requires start + 1 < |sql|
    ensures end == start + 2 + BlockEnd(sql[start + 2..])
  {
    var i := start + 2;
    while i < |sql| && !(sql[i] == '*' && i + 1 < |sql| && sql[i + 1] == '/')
      invariant start + 2 <= i <= |sql|
      invariant i + BlockEnd(sql[i..]) == start + 2 + BlockEnd(sql[start + 2..])
    {
      assert sql[i..][1..] == sql[i + 1..];
      i := i + 1;
    }
    end := if i + 2 < |sql| then i + 2 else |sql|;
  }

  /** The switch of the scanning loop: where the lexeme at i ends, and whether it is a gap. */
  method NextLexeme(sql: string, i: nat) returns (isGap: bool, end: nat)
    requires i < |sql|
    ensures i < end <= |sql|
    ensures First(sql[i..]) == if isGap then Lexeme.Gap(end - i) else Text(end - i)
  {
    var c := sql[i];
    ghost var s := sql[i..];
    assert s[0] == c && (|s| > 1 ==> s[1] == sql[i + 1] && s[2..] == sql[i + 2..]) && s[1..] == sql[i + 1..];
    isGap := true;
    end := i + 1;
    if c == '-' && i + 1 < |sql| && sql[i + 1] == '-' {
      end := SkipLineComment(sql, i);
    } else if c == '/' && i + 1 < |sql| && sql[i + 1] == '*' {
      end := SkipBlockComment(sql, i);
    } else if !IsSpace(c) {
      isGap := false;
      if IsQuote(c) || c == '[' {
        end := EndOfQuoted(sql, i, if c == '[' then ']' else c);
      }
    }
  }

  /** One turn of the scanning loop: consume the lexeme at i. */
  method ScanOne(sql: string, i: nat, out: Builder, ghost goal: string) returns (end: nat)
    requires i < |sql| && (out.pending ==> out.b != [])
    requires Prints(goal, sql[i..], out.b, out.last, out.pending)
    modifies out
    ensures i < end <= |sql| && (out.pending ==> out.b != [])
    ensures Prints(goal, sql[end..], out.b, out.last, out.pending)
  {
    var isGap;
    isGap, end := NextLexeme(sql, i);
    ghost var s, rest := sql[i..], sql[end..];
    assert s[end - i..] == rest;
    if isGap {
      PrintsGap(goal, s, end - i, out.b, out.last, out.pending);
      out.Gap();
    } else {
      var tok := sql[i..end];
      assert s == tok + rest;
      PrintsText(goal, tok, rest, out.b, out.last, out.pending);
      out.Write(tok);
    }
  }

  method ScrubSQL(sql: string) returns (text: string)
    ensures text == Scrubbed(sql)
  {
    var out := new Builder();
    var i := 0;
    assert sql[0..] == sql && [] + Scrubbed(sql) == Scrubbed(sql);
    while i < |sql|
      invariant 0 <= i <= |sql|
      invariant fresh(out) && (out.pending ==> out.b != [])
      invariant Prints(Scrubbed(sql), sql[i..], out.b, out.last, out.pending)
    {
      i := ScanOne(sql, i, out, Scrubbed(sql));
    }
    assert sql[i..] == [];
    text := out.b;
  }
}
