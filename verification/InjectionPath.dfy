/** The JSONPath-lite parser of resource-injection paths, proved against the
    grammar it accepts. Bytes are modelled as characters: every character the
    parser tests is ASCII. */
module InjectionPath {
  import opened Text

  datatype PathError =
    | EmptyPath | EmptySegment | TrailingDot | UnclosedBracket | UnquotedBracket
    | UnterminatedKey | EmptyKey | MissingClose | UnexpectedChar

  datatype ParseResult = Parsed(segments: seq<string>) | Rejected(error: PathError)

  // ---- the grammar ----------------------------------------------------------

  /** A bare segment, or a bracket-quoted one, which a dot may precede. */
  datatype Token = Bare(name: string) | Bracket(dotted: bool, quote: char, name: string)

  predicate IsQuote(c: char) {
    c == '"' || c == '\''
  }

  predicate BareName(w: string) {
    w != "" && '.' !in w && '[' !in w
  }

  predicate WellFormed(t: Token) {
    match t
    case Bare(w) => BareName(w)
    case Bracket(_, q, w) => IsQuote(q) && w != "" && q !in w
  }

  function Core(t: Token): string {
    match t
    case Bare(w) => w
    case Bracket(_, q, w) => ['[', q] + w + [q, ']']
  }

  predicate NeedsDot(t: Token) {
    t.Bare? || t.dotted
  }

  /** A token after the first one, with its separator. */
  function Follow(t: Token): string {
    if NeedsDot(t) then "." + Core(t) else Core(t)
  }

  function PrintTail(ts: seq<Token>): string {
    if ts == [] then "" else Follow(ts[0]) + PrintTail(ts[1..])
  }

  function Print(ts: seq<Token>): string
    requires ts != []
  {
    Core(ts[0]) + PrintTail(ts[1..])
  }

  function Names(ts: seq<Token>): seq<string> {
    if ts == [] then [] else [ts[0].name] + Names(ts[1..])
  }

  ghost predicate AllWellFormed(ts: seq<Token>) {
    forall i :: 0 <= i < |ts| ==> WellFormed(ts[i])
  }

  /** A path: at least one token, the first one undotted. */
  ghost predicate Path(ts: seq<Token>) {
    ts != [] && AllWellFormed(ts) && (ts[0].Bracket? ==> !ts[0].dotted)
  }

  // ---- a recognizer for the grammar -----------------------------------------

  function BareLen(s: string): (n: nat)
    ensures n <= |s|
  {
    if s == "" || s[0] == '.' || s[0] == '[' then 0 else 1 + BareLen(s[1..])
  }

  function QuoteAt(s: string, q: char): (n: nat)
    ensures n <= |s|
    ensures q !in s[..n] && (n < |s| ==> s[n] == q)
  {
    if s == "" || s[0] == q then 0
    else
      var n := 1 + QuoteAt(s[1..], q);
      assert s[..n] == [s[0]] + s[1..][..n - 1];
      n
  }

  datatype Lexeme = Lexeme(token: Token, rest: string)

  /** One token without its separator. */
  function Item(s: string, dotted: bool): (r: Option<Lexeme>)
    ensures r.Some? ==> |r.value.rest| < |s|
  {
    if s == "" then None
    else if s[0] == '[' then
      if |s| < 2 || !IsQuote(s[1]) then None
      else
        var n := QuoteAt(s[2..], s[1]);
        if n == 0 || n + 3 >= |s| || s[n + 3] != ']' then None
        else Some(Lexeme(Bracket(dotted, s[1], s[2..][..n]), s[n + 4..]))
    else if BareLen(s) == 0 then None
    else Some(Lexeme(Bare(s[..BareLen(s)]), s[BareLen(s)..]))
  }

  /** One token with its separator. */
  function Next(s: string): (r: Option<Lexeme>)
    ensures r.Some? ==> |r.value.rest| < |s|
  {
    if s == "" then None
    else if s[0] == '.' then Item(s[1..], true)
    else if s[0] == '[' then Item(s, false)
    else None
  }

  function ScanTail(s: string): Option<seq<Token>>
    decreases |s|
  {
    if s == "" then Some([])
    else
      var lex := Next(s);
      if lex.None? then None
      else
        var ts := ScanTail(lex.value.rest);
        if ts.None? then None else Some([lex.value.token] + ts.value)
  }

  function Scan(s: string): Option<seq<Token>> {
    var lex := Item(s, false);
    if lex.None? then None
    else
      var ts := ScanTail(lex.value.rest);
      if ts.None? then None else Some([lex.value.token] + ts.value)
  }

  // ---- recognizer == grammar ------------------------------------------------

  lemma {:induction false} BareLenIs(w: string, rest: string)
    requires '.' !in w && '[' !in w
    requires rest == "" || rest[0] == '.' || rest[0] == '['
    ensures BareLen(w + rest) == |w|
  {
    if w == "" {
      assert w + rest == rest;
    } else {
      assert (w + rest)[1..] == w[1..] + rest;
      BareLenIs(w[1..], rest);
    }
  }

  lemma {:induction false} BareLenClean(s: string)
    ensures '.' !in s[..BareLen(s)] && '[' !in s[..BareLen(s)]
    ensures BareLen(s) < |s| ==> s[BareLen(s)] == '.' || s[BareLen(s)] == '['
  {
    if BareLen(s) > 0 {
      BareLenClean(s[1..]);
      assert s[..BareLen(s)] == [s[0]] + s[1..][..BareLen(s) - 1];
    }
  }

  lemma {:induction false} QuoteAtIs(w: string, q: char, rest: string)
    requires q !in w
    ensures QuoteAt(w + [q] + rest, q) == |w|
  {
    if w == "" {
      assert w + [q] + rest == [q] + rest;
    } else {
      assert (w + [q] + rest)[1..] == w[1..] + [q] + rest;
      QuoteAtIs(w[1..], q, rest);
    }
  }

  lemma ItemOfCore(t: Token, rest: string, dotted: bool)
    requires WellFormed(t)
    requires rest == "" || rest[0] == '.' || rest[0] == '['
    requires t.Bracket? ==> t.dotted == dotted
    ensures Item(Core(t) + rest, dotted) == Some(Lexeme(t, rest))
  {
    if t.Bare? {
      ItemOfBare(t.name, rest, dotted);
    } else {
      ItemOfBracket(t.quote, t.name, rest, dotted);
    }
  }

  lemma ItemOfBare(w: string, rest: string, dotted: bool)
    requires BareName(w)
    requires rest == "" || rest[0] == '.' || rest[0] == '['
    ensures Item(w + rest, dotted) == Some(Lexeme(Bare(w), rest))
  {
    var s := w + rest;
    BareLenIs(w, rest);
    assert s[0] == w[0] && s[0] in w;
    assert s[..|w|] == w && s[|w|..] == rest;
  }

  lemma ItemOfBracket(q: char, w: string, rest: string, dotted: bool)
    requires IsQuote(q) && w != "" && q !in w
    ensures Item(['[', q] + w + [q, ']'] + rest, dotted) == Some(Lexeme(Bracket(dotted, q, w), rest))
  {
    var s := ['[', q] + w + [q, ']'] + rest;
    var after := [']'] + rest;
    assert s[2..] == w + [q] + after;
    QuoteAtIs(w, q, after);
    assert s[2..][..|w|] == w && s[|w| + 3] == ']';
    assert s[|w| + 4..] == rest;
  }

  lemma CoreOfItem(s: string, dotted: bool)
    requires Item(s, dotted).Some?
    ensures var lex := Item(s, dotted).value;
            && WellFormed(lex.token) && Core(lex.token) + lex.rest == s
            && (lex.token.Bracket? ==> lex.token.dotted == dotted)
  {
    if s[0] == '[' {
      var n := QuoteAt(s[2..], s[1]);
      assert s[2..][n] == s[n + 2] == s[1];
      assert s == s[..2] + s[2..n + 2] + s[n + 2..n + 4] + s[n + 4..];
      assert s[..2] == ['[', s[1]] && s[n + 2..n + 4] == [s[1], ']'] && s[2..n + 2] == s[2..][..n];
    } else {
      BareLenClean(s);
    }
  }

  lemma NextOfFollow(t: Token, rest: string)
    requires WellFormed(t)
    requires rest == "" || rest[0] == '.' || rest[0] == '['
    ensures Next(Follow(t) + rest) == Some(Lexeme(t, rest))
  {
    ItemOfCore(t, rest, NeedsDot(t));
    if NeedsDot(t) {
      NextAfterDot(Core(t), rest);
    } else {
      assert (Core(t) + rest)[0] == '[';
    }
  }

  lemma NextAfterDot(core: string, rest: string)
    ensures Next("." + core + rest) == Item(core + rest, true)
  {
    assert ("." + core + rest)[1..] == core + rest;
  }

  lemma FollowOfNext(s: string)
    requires Next(s).Some?
    ensures var lex := Next(s).value; WellFormed(lex.token) && Follow(lex.token) + lex.rest == s
  {
    var lex := Next(s).value;
    if s[0] == '.' {
      CoreOfItem(s[1..], true);
      assert s == "." + s[1..];
    } else {
      CoreOfItem(s, false);
    }
  }

  lemma {:induction false} ScanTailComplete(ts: seq<Token>)
    requires AllWellFormed(ts)
    ensures ScanTail(PrintTail(ts)) == Some(ts)
  {
    if ts != [] {
      ScanTailComplete(ts[1..]);
      TailStart(ts[1..]);
      NextOfFollow(ts[0], PrintTail(ts[1..]));
      assert ts == [ts[0]] + ts[1..];
      assert Follow(ts[0]) != "";
    }
  }

  lemma TailStart(ts: seq<Token>)
    ensures var s := PrintTail(ts); s == "" || s[0] == '.' || s[0] == '['
  {
  }

  lemma {:induction false} ScanTailSound(s: string)
    requires ScanTail(s).Some?
    ensures AllWellFormed(ScanTail(s).value) && PrintTail(ScanTail(s).value) == s
    decreases |s|
  {
    if s != "" {
      var lex := Next(s).value;
      FollowOfNext(s);
      ScanTailSound(lex.rest);
      assert ScanTail(s).value[1..] == ScanTail(lex.rest).value;
    }
  }

  /** The recognizer accepts exactly the printed paths. */
  lemma ScanIsGrammar(s: string)
    ensures Scan(s).Some? ==> Path(Scan(s).value) && Print(Scan(s).value) == s
    ensures forall ts :: Path(ts) && Print(ts) == s ==> Scan(s) == Some(ts)
  {
    if Scan(s).Some? {
      var lex := Item(s, false).value;
      CoreOfItem(s, false);
      ScanTailSound(lex.rest);
      assert Scan(s).value[1..] == ScanTail(lex.rest).value;
    }
    forall ts | Path(ts) && Print(ts) == s ensures Scan(s) == Some(ts) {
      ScanTailComplete(ts[1..]);
      TailStart(ts[1..]);
      ItemOfCore(ts[0], PrintTail(ts[1..]), false);
      assert ts == [ts[0]] + ts[1..];
    }
  }

  // ---- the parser -----------------------------------------------------------

  ghost function ScanNames(s: string): Option<seq<string>> {
    if Scan(s).None? then None else Some(Names(Scan(s).value))
  }

  ghost function Join(out: seq<string>, more: Option<seq<string>>): Option<seq<string>> {
    if more.None? then None else Some(out + more.value)
  }

  ghost function TailNames(s: string): Option<seq<string>> {
    if ScanTail(s).None? then None else Some(Names(ScanTail(s).value))
  }

  /** What the parser will answer from a loop state with `rest` still unread. */
  ghost function Resume(out: seq<string>, buf: string, emitted: bool, rest: string): Option<seq<string>> {
    if buf != "" then
      var n := BareLen(rest);
      Join(out + [buf + rest[..n]], TailNames(rest[n..]))
    else if emitted then Join(out, TailNames(rest))
    else Join(out, ScanNames(rest))
  }

  /** At a separator, the tail is one more path. */
  lemma TailAtSeparator(s: string)
    requires s != "" && (s[0] == '.' || s[0] == '[')
    ensures TailNames(s) == ScanNames(if s[0] == '.' then s[1..] else s)
  {
  }

  /** `flushBare` at a separator: the buffer becomes a segment. */
  lemma Flush(out: seq<string>, buf: string, emitted: bool, rest: string)
    requires rest != "" && (rest[0] == '.' || rest[0] == '[')
    requires buf != "" || emitted
    ensures Resume(out, buf, emitted, rest)
         == Join(if buf != "" then out + [buf] else out, ScanNames(if rest[0] == '.' then rest[1..] else rest))
  {
    TailAtSeparator(rest);
    if buf != "" {
      assert buf + rest[..0] == buf && rest[0..] == rest;
    }
  }

  /** An ordinary character extends the buffer. */
  lemma Extend(out: seq<string>, buf: string, rest: string)
    requires rest != "" && rest[0] != '.' && rest[0] != '['
    ensures Resume(out, buf, false, rest) == Resume(out, buf + [rest[0]], false, rest[1..])
  {
    var n := BareLen(rest);
    assert rest[..n] == [rest[0]] + rest[1..][..n - 1];
    assert buf + rest[..n] == (buf + [rest[0]]) + rest[1..][..n - 1];
    assert rest[n..] == rest[1..][n - 1..];
    if buf == "" {
      AfterItem(out, rest);
      assert buf + rest[..n] == rest[..n];
    }
  }

  lemma JoinNothing(more: Option<seq<string>>)
    ensures Join([], more) == more
  {
    if more.Some? {
      assert [] + more.value == more.value;
    }
  }

  /** After a first item, the path is that name and the tail of the rest. */
  lemma AfterItem(out: seq<string>, rest: string)
    requires Item(rest, false).Some?
    ensures var lex := Item(rest, false).value;
            Join(out, ScanNames(rest)) == Join(out + [lex.token.name], TailNames(lex.rest))
  {
    var lex := Item(rest, false).value;
    if Scan(rest).Some? {
      assert Scan(rest).value[1..] == ScanTail(lex.rest).value;
      assert out + Names(Scan(rest).value) == (out + [lex.token.name]) + Names(ScanTail(lex.rest).value);
    }
  }

  lemma {:induction false} QuoteSearch(s: string, q: char, n: nat)
    requires n <= |s| && q !in s[..n] && (n < |s| ==> s[n] == q)
    ensures QuoteAt(s, q) == n
  {
  }

  /** `s[start..i]` is the unquoted run the inner loop has skipped. */
  method FindQuote(s: string, start: nat, quote: char) returns (i: nat)
    requires start <= |s|
    ensures start <= i <= |s| && i - start == QuoteAt(s[start..], quote)
  {
    i := start;
    while i < |s| && s[i] != quote
      invariant start <= i <= |s|
      invariant quote !in s[start..i]
    {
      assert s[start..i + 1] == s[start..i] + [s[i]];
      i := i + 1;
    }
    assert s[start..][..i - start] == s[start..i];
    QuoteSearch(s[start..], quote, i - start);
  }

  datatype Segment = Good(key: string, end: nat) | Bad(error: PathError)

  /** The `[` case of the loop: a quoted key and its closing bracket. */
  method BracketSegment(s: string, at: nat) returns (r: Segment)
    requires at < |s| && s[at] == '['
    ensures r.Good? <==> Item(s[at..], false).Some?
    ensures r.Good? ==>
      && at < r.end <= |s|
      && r.key == Item(s[at..], false).value.token.name && s[r.end..] == Item(s[at..], false).value.rest
  {
    var i := at + 1;
    if i >= |s| {
      return Bad(UnclosedBracket);
    }
    var quote := s[i];
    if quote != '"' && quote != '\'' {
      return Bad(UnquotedBracket);
    }
    i := i + 1;
    var start := i;
    i := FindQuote(s, start, quote);
    assert s[start..] == s[at..][2..];
    if i == |s| {
      return Bad(UnterminatedKey);
    }
    var key := s[start..i];
    assert key == s[at..][2..][..i - start];
    if key == "" {
      return Bad(EmptyKey);
    }
    i := i + 1;
    if i >= |s| || s[i] != ']' {
      return Bad(MissingClose);
    }
    i := i + 1;
    assert s[i..] == s[at..][i - at..];
    r := Good(key, i);
  }

  /** `parsePath`. Accepts exactly the paths of the grammar and returns their
      segment names; the two exits after the loop cannot be taken. */
  method ParsePath(s: string) returns (r: ParseResult)
    ensures r.Parsed? ==> exists ts :: Path(ts) && Print(ts) == s && Names(ts) == r.segments
    ensures r.Rejected? ==> forall ts :: Path(ts) ==> Print(ts) != s
  {
    r := ParseLoop(s);
    ScanIsGrammar(s);
  }

  method ParseLoop(s: string) returns (r: ParseResult)
    ensures r.Parsed? <==> ScanNames(s).Some?
    ensures r.Parsed? ==> r.segments == ScanNames(s).value
  {
    if s == "" {
      return Rejected(EmptyPath);
    }
    var out: seq<string>, buf, i, n, emitted := [], "", 0, |s|, false;
    assert s[0..] == s;
    JoinNothing(ScanNames(s));
    while i < n
      invariant 0 <= i <= n == |s|
      invariant ScanNames(s) == Resume(out, buf, emitted, s[i..])
      invariant buf != "" ==> !emitted
      invariant emitted && i < n ==> s[i] == '.' || s[i] == '['
      invariant i == n ==> buf != "" || emitted
    {
      var rest := s[i..];
      if s[i] == '.' {
        if buf != "" || emitted {
          Flush(out, buf, emitted, rest);
        }
        if buf != "" {
          out, buf, emitted := out + [buf], "", true;
        }
        if !emitted {
          return Rejected(EmptySegment);
        }
        emitted := false;
        i := i + 1;
        assert s[i..] == rest[1..];
        if i == n {
          return Rejected(TrailingDot);
        }
      } else if s[i] == '[' {
        if buf != "" || emitted {
          Flush(out, buf, emitted, rest);
        }
        if buf != "" {
          out, buf, emitted := out + [buf], "", true;
        }
        var seg := BracketSegment(s, i);
        if seg.Bad? {
          return Rejected(seg.error);
        }
        AfterItem(out, rest);
        out, emitted := out + [seg.key], true;
        i := seg.end;
        if i < n && s[i] != '.' && s[i] != '[' {
          return Rejected(UnexpectedChar);
        }
      } else {
        Extend(out, buf, rest);
        buf := buf + [s[i]];
        i := i + 1;
        assert s[i..] == rest[1..];
      }
    }
    assert s[n..] == "";
    if buf != "" {
      assert buf + ""[..0] == buf;
      out, buf, emitted := out + [buf], "", true;
    }
    if !emitted {
      assert false;
    }
    if |out| == 0 {
      assert false;
    }
    assert out + [] == out;
    r := Parsed(out);
  }

  /** Accepted paths have one reading, of non-empty segments. */
  lemma {:induction false} Unambiguous(ts: seq<Token>, us: seq<Token>)
    requires Path(ts) && Path(us) && Print(ts) == Print(us)
    ensures ts == us
    ensures Names(ts) != [] && forall w :: w in Names(ts) ==> w != ""
  {
    ScanIsGrammar(Print(ts));
    NamesNonEmpty(ts);
  }

  lemma {:induction false} NamesNonEmpty(ts: seq<Token>)
    requires AllWellFormed(ts)
    ensures |Names(ts)| == |ts| && forall w :: w in Names(ts) ==> w != ""
  {
    if ts != [] {
      NamesNonEmpty(ts[1..]);
    }
  }

  /** A segment some path can spell. */
  predicate Spellable(w: string) {
    BareName(w) || (w != "" && ('"' !in w || '\'' !in w))
  }

  function Spell(w: string): (t: Token)
    requires Spellable(w)
    ensures WellFormed(t) && t.name == w && (t.Bracket? ==> !t.dotted)
  {
    if BareName(w) then Bare(w) else Bracket(false, if '"' !in w then '"' else '\'', w)
  }

  function SpellAll(segs: seq<string>): (ts: seq<Token>)
    requires forall w :: w in segs ==> Spellable(w)
    ensures |ts| == |segs| && AllWellFormed(ts) && Names(ts) == segs
    ensures forall i :: 0 <= i < |ts| ==> ts[i].Bracket? ==> !ts[i].dotted
  {
    if segs == [] then [] else
      var ts := [Spell(segs[0])] + SpellAll(segs[1..]);
      assert ts[1..] == SpellAll(segs[1..]);
      ts
  }

  ghost predicate AllSpellable(segs: seq<string>) {
    segs != [] && forall w :: w in segs ==> Spellable(w)
  }

  /** Every non-empty list of spellable segments survives printing and parsing. */
  lemma RoundTrip(segs: seq<string>)
    requires AllSpellable(segs)
    ensures Path(SpellAll(segs)) && ScanNames(Print(SpellAll(segs))) == Some(segs)
  {
    ScanIsGrammar(Print(SpellAll(segs)));
  }

  /** And the parser returns nothing else. */
  lemma OnlySpellable(s: string)
    ensures ScanNames(s).Some? ==> AllSpellable(ScanNames(s).value)
  {
    ScanIsGrammar(s);
    if Scan(s).Some? {
      NamesSpellable(Scan(s).value);
    }
  }

  lemma {:induction false} NamesSpellable(ts: seq<Token>)
    requires AllWellFormed(ts)
    ensures |Names(ts)| == |ts| && forall w :: w in Names(ts) ==> Spellable(w)
  {
    if ts != [] {
      assert WellFormed(ts[0]);
      NamesSpellable(ts[1..]);
    }
  }

  // ---- what is accepted, character by character -----------------------------

  /** Names separated by a dot. */
  lemma DottedPath(a: string, b: string)
    requires BareName(a) && BareName(b)
    ensures ScanNames(a + "." + b) == Some([a, b])
  {
    var ts := [Bare(a), Bare(b)];
    TwoTokens(ts[0], ts[1]);
    assert Print(ts) == a + "." + b;
    ScanIsGrammar(a + "." + b);
  }

  /** A key in brackets and either quotes, right after a name or after a dot: it may
      hold dots and brackets, but not its own quote. */
  lemma BracketedPath(a: string, key: string, quote: char, dotted: bool)
    requires BareName(a) && key != "" && quote !in key && (quote == '"' || quote == '\'')
    ensures ScanNames(a + (if dotted then "." else "") + "[" + [quote] + key + [quote] + "]") == Some([a, key])
  {
    var ts := [Bare(a), Bracket(dotted, quote, key)];
    TwoTokens(ts[0], ts[1]);
    var s := a + (if dotted then "." else "") + "[" + [quote] + key + [quote] + "]";
    assert Print(ts) == s;
    ScanIsGrammar(s);
  }

  lemma TwoTokens(t: Token, u: Token)
    ensures Print([t, u]) == Core(t) + Follow(u) && Names([t, u]) == [t.name, u.name]
  {
    assert [t, u][1..] == [u] && [u][1..] == [];
    assert PrintTail([u]) == Follow(u) + "" && Names([u]) == [u.name] + [];
  }

  /** No path is empty, begins with a dot, or ends with one. */
  lemma DotsSeparate(s: string)
    requires s == "" || s[0] == '.' || s[|s| - 1] == '.'
    ensures ScanNames(s).None?
  {
    if Scan(s).Some? && s != "" {
      ScanIsGrammar(s);
      var ts := Scan(s).value;
      CoreEnd(ts[0]);
      TailEnd(ts[1..]);
    }
  }

  lemma CoreEnd(t: Token)
    requires WellFormed(t)
    ensures Core(t) != "" && Core(t)[0] != '.' && Core(t)[|Core(t)| - 1] != '.'
  {
    assert Core(t)[0] in Core(t) && Core(t)[|Core(t)| - 1] in Core(t);
  }

  lemma {:induction false} TailEnd(ts: seq<Token>)
    requires AllWellFormed(ts)
    ensures var s := PrintTail(ts); s == "" || s[|s| - 1] != '.'
  {
    if ts != [] {
      assert WellFormed(ts[0]);
      CoreEnd(ts[0]);
      TailEnd(ts[1..]);
      assert Follow(ts[0])[|Follow(ts[0])| - 1] != '.';
    }
  }
}
