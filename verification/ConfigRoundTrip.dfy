/** Writing a tree and reading it back gives the same tree exactly if all its
    words are plain (srs_app_config.cpp). */
module ConfigRoundTrip {
  import opened Sequences
  import opened ConfigTree
  import opened ConfigText

  // ------------------------------------------------ line numbers do not matter

  ghost predicate SameToken(a: Token, b: Token) {
    a.code == b.code && a.args == b.args && a.rest == b.rest
  }

  lemma {:induction false} LinesDontMatter(s: string, args: seq<string>, word: string, mode: Mode, l1: int, s1: int, l2: int, s2: int)
    ensures SameToken(Lex(s, args, word, mode, l1, s1), Lex(s, args, word, mode, l2, s2))
    decreases |s|
  {
    if s == "" {
    } else {
      var ch, rest := s[0], s[1..];
      var k1, k2 := if ch == '\n' then l1 + 1 else l1, if ch == '\n' then l2 + 1 else l2;
      var t1, t2 := if s1 == 0 then k1 else s1, if s2 == 0 then k2 else s2;
      match mode
      case Comment => LinesDontMatter(rest, args, "", if ch == '\n' then Gap else Comment, k1, s1, k2, s2);
      case Closed => LinesDontMatter(rest, args, "", Gap, k1, s1, k2, s2);
      case Gap =>
        var m := if ch == '#' then Comment else if ch == '"' then Double else if ch == '\'' then Single else if IsSpace(ch) then Gap else Bare;
        LinesDontMatter(rest, args, if m == Bare then [ch] else "", m, k1, s1, k2, s2);
      case Double =>
        if ch == '"' {
          LinesDontMatter(rest, Push(args, word), "", Closed, k1, t1, k2, t2);
        } else {
          LinesDontMatter(rest, args, word + [ch], Double, k1, t1, k2, t2);
        }
      case Single =>
        if ch == '\'' {
          LinesDontMatter(rest, Push(args, word), "", Closed, k1, t1, k2, t2);
        } else {
          LinesDontMatter(rest, args, word + [ch], Single, k1, t1, k2, t2);
        }
      case Bare =>
        if IsSpace(ch) {
          LinesDontMatter(rest, Push(args, word), "", Gap, k1, t1, k2, t2);
        } else if ch != ';' && ch != '{' {
          LinesDontMatter(rest, args, word + [ch], Bare, k1, t1, k2, t2);
        }
    }
  }

  ghost predicate SameParsed(a: Parsed, b: Parsed) {
    if a.Failed? then a == b else b.Parsed? && EraseAll(a.subs) == EraseAll(b.subs) && a.rest == b.rest
  }

  lemma {:induction false} ParseLinesDontMatter(s: string, l1: int, l2: int, block: bool)
    ensures SameParsed(ParseConf(s, l1, block), ParseConf(s, l2, block))
    decreases |s|
  {
    LinesDontMatter(s, [], "", Gap, l1, 0, l2, 0);
    var t1, t2 := Lex(s, [], "", Gap, l1, 0), Lex(s, [], "", Gap, l2, 0);
    if t1.args == [] || (t1.code != Semicolon && t1.code != BlockStart) {
    } else if t1.code == Semicolon {
      ParseLinesDontMatter(t1.rest, t1.line, t2.line, block);
    } else {
      ParseLinesDontMatter(t1.rest, t1.line, t2.line, true);
      var i1, i2 := ParseConf(t1.rest, t1.line, true), ParseConf(t2.rest, t2.line, true);
      if i1.Parsed? {
        ParseLinesDontMatter(i1.rest, i1.line, i2.line, block);
      }
    }
  }

  // ------------------------------------------------------- reading plain text

  lemma {:induction false} CStringPlain(w: string)
    requires AllWordChars(w)
    ensures CString(w) == w
  {
    if w == "" {
    } else {
      CStringPlain(w[1..]);
    }
  }

  /** The rest of a word of word characters is read as it is. */
  lemma {:induction false} LexWord(w: string, s: string, args: seq<string>, word: string, line: int, start: int)
    requires AllWordChars(w)
    ensures exists start' :: Lex(w + s, args, word, Bare, line, start) == Lex(s, args, word + w, Bare, line, start')
    decreases |w|
  {
    if w == "" {
      assert w + s == s && word + w == word;
      assert Lex(w + s, args, word, Bare, line, start) == Lex(s, args, word + w, Bare, line, start);
    } else {
      assert (w + s)[1..] == w[1..] + s && WordChar(w[0]);
      var start1 := if start == 0 then line else start;
      LexWord(w[1..], s, args, word + [w[0]], line, start1);
      assert word + [w[0]] + w[1..] == word + w;
      assert Lex(w + s, args, word, Bare, line, start) == Lex(w[1..] + s, args, word + [w[0]], Bare, line, start1);
    }
  }

  /** A plain word between words. */
  lemma LexPlain(w: string, s: string, args: seq<string>, line: int, start: int)
    requires PlainWord(w)
    ensures exists start' :: Lex(w + s, args, "", Gap, line, start) == Lex(s, args, w, Bare, line, start')
  {
    assert WordChar(w[0]) && (w + s)[1..] == w[1..] + s;
    LexWord(w[1..], s, args, [w[0]], line, start);
    assert [w[0]] + w[1..] == w;
  }

  /** A plain word that ends a directive, or is followed by a space. */
  lemma LexLast(w: string, ch: char, s: string, args: seq<string>, line: int, start: int)
    requires PlainWord(w) && (ch == ';' || ch == '{')
    ensures SameToken(Lex(w + [ch] + s, args, "", Gap, line, start), Token(if ch == ';' then Semicolon else BlockStart, args + [w], s, 0, 0))
  {
    assert w + [ch] + s == w + ([ch] + s);
    LexPlain(w, [ch] + s, args, line, start);
    CStringPlain(w);
  }

  lemma LexThenSpace(w: string, s: string, args: seq<string>, line: int, start: int)
    requires PlainWord(w)
    ensures SameToken(Lex(w + " " + s, args, "", Gap, line, start), Lex(s, args + [w], "", Gap, line, start))
  {
    assert w + " " + s == w + (" " + s);
    LexPlain(w, " " + s, args, line, start);
    CStringPlain(w);
    var start1 :| Lex(w + (" " + s), args, "", Gap, line, start) == Lex(" " + s, args, w, Bare, line, start1);
    LinesDontMatter(s, args + [w], "", Gap, line, if start1 == 0 then line else start1, line, start);
  }

  /** The words of a directive that has no block, up to its semicolon. */
  lemma {:induction false} LexLeaf(ws: seq<string>, s: string, args: seq<string>, line: int, start: int)
    requires ws != [] && PlainWords(ws)
    ensures SameToken(Lex(Join(ws) + ";" + s, args, "", Gap, line, start), Token(Semicolon, args + ws, s, 0, 0))
    decreases |ws|
  {
    if |ws| == 1 {
      LexLast(ws[0], ';', s, args, line, start);
      assert ws == [ws[0]];
    } else {
      var tail := Join(ws[1..]) + ";" + s;
      assert Join(ws) + ";" + s == ws[0] + " " + tail;
      LexThenSpace(ws[0], tail, args, line, start);
      LexLeaf(ws[1..], s, args + [ws[0]], line, start);
      assert args + [ws[0]] + ws[1..] == args + ws;
    }
  }

  /** The words of a directive that has a block, up to its brace. */
  lemma {:induction false} LexBlock(ws: seq<string>, s: string, args: seq<string>, line: int, start: int)
    requires ws != [] && PlainWords(ws)
    ensures SameToken(Lex(Join(ws) + " {" + s, args, "", Gap, line, start), Token(BlockStart, args + ws, s, 0, 0))
    decreases |ws|
  {
    var tail := (if |ws| == 1 then "" else Join(ws[1..]) + " ") + "{" + s;
    assert Join(ws) + " {" + s == ws[0] + " " + tail;
    LexThenSpace(ws[0], tail, args, line, start);
    if |ws| == 1 {
      assert tail[0] == '{' && tail[1..] == s;
      assert ws == [ws[0]];
    } else {
      assert tail == Join(ws[1..]) + " {" + s;
      LexBlock(ws[1..], s, args + [ws[0]], line, start);
      assert args + [ws[0]] + ws[1..] == args + ws;
    }
  }

  /** Name and arguments are one list of words. */
  lemma HeadWords(d: Directive)
    ensures Head(d) == Join([d.name] + d.args) + if d.subs == [] then ";" else " {"
  {
    assert ([d.name] + d.args)[1..] == d.args;
  }

  lemma {:induction false} LexIndent(n: nat, s: string, line: int)
    ensures Lex(Indent(n) + s, [], "", Gap, line, 0) == Lex(s, [], "", Gap, line, 0)
  {
    if n == 0 {
      assert Indent(n) + s == s;
    } else {
      var t := Indent(n - 1) + s;
      assert Indent(n) + s == [' '] + ([' '] + ([' '] + ([' '] + t)));
      LexSpace(t, line);
      LexSpace([' '] + t, line);
      LexSpace([' '] + ([' '] + t), line);
      LexSpace([' '] + ([' '] + ([' '] + t)), line);
      LexIndent(n - 1, s, line);
    }
  }

  lemma LexSpace(s: string, line: int)
    ensures Lex([' '] + s, [], "", Gap, line, 0) == Lex(s, [], "", Gap, line, 0)
  {
    assert ([' '] + s)[1..] == s;
  }

  /** A line break between directives. */
  lemma ParseNewline(s: string, line: int, block: bool)
    ensures SameParsed(ParseConf("\n" + s, line, block), ParseConf(s, line, block))
  {
    assert ("\n" + s)[1..] == s;
    assert Lex("\n" + s, [], "", Gap, line, 0) == Lex(s, [], "", Gap, line + 1, 0);
    var a, b := ParseConf("\n" + s, line, block), ParseConf(s, line + 1, block);
    assert a == b;
    ParseLinesDontMatter(s, line + 1, line, block);
  }

  // ---------------------------------------------------- plain implies round trip

  /** What is expected after the directives ds: them, and then what follows. */
  ghost predicate Reads(s: string, line: int, block: bool, ds: seq<Directive>, after: Parsed) {
    var p := ParseConf(s, line, block);
    if after.Failed? then p == after
    else p.Parsed? && EraseAll(p.subs) == EraseAll(ds) + EraseAll(after.subs) && p.rest == after.rest
  }

  lemma PrintLeaf(d: Directive, level: nat, s: string)
    requires level > 0 && d.subs == []
    ensures Print(d, level) + s == Indent(level - 1) + (Join([d.name] + d.args) + ";" + ("\n" + s))
  {
    HeadWords(d);
    var a, b := Indent(level - 1), Join([d.name] + d.args);
    assert Print(d, level) == a + (b + ";") + "\n" + "" + "";
  }

  lemma PrintBlock(d: Directive, level: nat, s: string)
    requires level > 0 && d.subs != []
    ensures Print(d, level) + s == Indent(level - 1) +
      (Join([d.name] + d.args) + " {" + ("\n" + (PrintAll(d.subs, level + 1) + (Indent(level - 1) + "}" + ("\n" + s)))))
  {
    HeadWords(d);
    hide Indent, Join, PrintAll;
    var a, b, c := Indent(level - 1), Join([d.name] + d.args), PrintAll(d.subs, level + 1);
    assert Print(d, level) == a + (b + " {") + "\n" + c + (a + "}" + "\n");
  }

  lemma ReadsLeaf(d: Directive, level: nat, s: string, line: int, block: bool)
    requires level > 0 && Plain(d) && d.subs == []
    ensures Reads(Print(d, level) + s, line, block, [d], ParseConf(s, line, block))
  {
    var ws := [d.name] + d.args;
    HeadWords(d);
    var text := Print(d, level) + s;
    PrintLeaf(d, level, s);
    LexIndent(level - 1, Join(ws) + ";" + ("\n" + s), line);
    LexLeaf(ws, "\n" + s, [], line, 0);
    var t := Lex(text, [], "", Gap, line, 0);
    assert [] + ws == ws;
    ParseNewline(s, t.line, block);
    ParseLinesDontMatter(s, t.line, line, block);
    EraseFirst(d, Directive(ws[0], ws[1..], [], t.start), ParseConf("\n" + s, t.line, block), ParseConf(s, line, block));
  }

  lemma EraseCons(d: Directive, ds: seq<Directive>)
    ensures EraseAll([d] + ds) == [Erase(d)] + EraseAll(ds)
  {
    assert ([d] + ds)[1..] == ds;
  }

  lemma EraseOne(d: Directive)
    ensures EraseAll([d]) == [Erase(d)]
  {
    EraseCons(d, []);
    assert [d] + [] == [d] && [Erase(d)] + EraseAll([]) == [Erase(d)];
  }

  lemma EraseFirst(d: Directive, d': Directive, p: Parsed, after: Parsed)
    requires Erase(d') == Erase(d) && SameParsed(p, after)
    ensures p.Parsed? ==> EraseAll(Before(d', p).subs) == EraseAll([d]) + EraseAll(after.subs)
  {
    if p.Parsed? {
      EraseCons(d', p.subs);
      EraseOne(d);
      assert Before(d', p).subs == [d'] + p.subs;
    }
  }

  lemma ReadsBoth(ds: seq<Directive>, text: string, later: string, s: string, line: int, block: bool)
    requires ds != [] && Reads(text, line, block, [ds[0]], ParseConf(later, line, block))
    requires Reads(later, line, block, ds[1..], ParseConf(s, line, block))
    ensures Reads(text, line, block, ds, ParseConf(s, line, block))
  {
    var after := ParseConf(s, line, block);
    if after.Parsed? {
      EraseOne(ds[0]);
      EraseCons(ds[0], ds[1..]);
      assert [ds[0]] + ds[1..] == ds;
      Regroup([Erase(ds[0])], EraseAll(ds[1..]), EraseAll(after.subs));
    }
  }

  lemma {:induction false} ReadsAll(ds: seq<Directive>, level: nat, s: string, line: int, block: bool)
    requires level > 0 && PlainAll(ds)
    ensures Reads(PrintAll(ds, level) + s, line, block, ds, ParseConf(s, line, block))
    decreases ds, 1
  {
    if ds == [] {
      assert PrintAll(ds, level) + s == s;
    } else {
      var later := PrintAll(ds[1..], level) + s;
      assert PrintAll(ds, level) + s == Print(ds[0], level) + later;
      ReadsOne(ds[0], level, later, line, block);
      ReadsAll(ds[1..], level, s, line, block);
      ReadsBoth(ds, PrintAll(ds, level) + s, later, s, line, block);
    }
  }

  lemma {:induction false} ReadsOne(d: Directive, level: nat, s: string, line: int, block: bool)
    requires level > 0 && Plain(d)
    ensures Reads(Print(d, level) + s, line, block, [d], ParseConf(s, line, block))
    decreases d, 0
  {
    if d.subs == [] {
      ReadsLeaf(d, level, s, line, block);
    } else {
      var closing := Indent(level - 1) + "}" + ("\n" + s);
      var inside := PrintAll(d.subs, level + 1) + closing;
      ReadsAll(d.subs, level + 1, closing, line, true);
      ReadsClosing(level, s, line);
      ReadsBlock(d, level, s, inside, line, block);
    }
  }

  lemma ReadsClosing(level: nat, s: string, line: int)
    requires level > 0
    ensures var p := ParseConf(Indent(level - 1) + "}" + ("\n" + s), line, true);
      p.Parsed? && p.subs == [] && p.rest == "\n" + s
  {
    var tail := "}" + ("\n" + s);
    assert Indent(level - 1) + "}" + ("\n" + s) == Indent(level - 1) + tail;
    LexIndent(level - 1, tail, line);
    assert tail[0] == '}' && tail[1..] == "\n" + s;
  }

  /** One block of a file: its words, its inside, and what comes after it. */
  lemma ParseBlock(text: string, line: int, block: bool, t: Token, inner: Parsed)
    requires t == Lex(text, [], "", Gap, line, 0) && t.code == BlockStart && t.args != []
    requires inner == ParseConf(t.rest, t.line, true) && inner.Parsed?
    ensures ParseConf(text, line, block) ==
      Before(Directive(t.args[0], t.args[1..], inner.subs, t.start), ParseConf(inner.rest, inner.line, block))
  {
  }

  /** The token at the start of the text of a block. */
  lemma LexHead(d: Directive, level: nat, s: string, inside: string, line: int)
    requires level > 0 && Plain(d) && d.subs != []
    requires inside == PrintAll(d.subs, level + 1) + (Indent(level - 1) + "}" + ("\n" + s))
    ensures SameToken(Lex(Print(d, level) + s, [], "", Gap, line, 0), Token(BlockStart, [d.name] + d.args, "\n" + inside, 0, 0))
  {
    var ws := [d.name] + d.args;
    PrintBlock(d, level, s);
    LexIndent(level - 1, Join(ws) + " {" + ("\n" + inside), line);
    LexBlock(ws, "\n" + inside, [], line, 0);
    assert [] + ws == ws;
  }

  /** A block whose inside is known to read as its directives. */
  lemma ReadsBlock(d: Directive, level: nat, s: string, inside: string, line: int, block: bool)
    requires level > 0 && Plain(d) && d.subs != []
    requires inside == PrintAll(d.subs, level + 1) + (Indent(level - 1) + "}" + ("\n" + s))
    requires var p := ParseConf(inside, line, true);
      p.Parsed? && EraseAll(p.subs) == EraseAll(d.subs) && p.rest == "\n" + s
    ensures Reads(Print(d, level) + s, line, block, [d], ParseConf(s, line, block))
  {
    var text := Print(d, level) + s;
    LexHead(d, level, s, inside, line);
    var t := Lex(text, [], "", Gap, line, 0);
    ParseNewline(inside, t.line, true);
    ParseLinesDontMatter(inside, t.line, line, true);
    var inner := ParseConf(t.rest, t.line, true);
    ParseBlock(text, line, block, t, inner);
    ParseNewline(s, inner.line, block);
    ParseLinesDontMatter(s, inner.line, line, block);
    var d', p, after := Directive(t.args[0], t.args[1..], inner.subs, t.start), ParseConf(inner.rest, inner.line, block), ParseConf(s, line, block);
    assert t.args[1..] == d.args;
    EraseFirst(d, d', p, after);
    assert ParseConf(text, line, block) == Before(d', p);
  }

  /** The text of a tree, and what reading it gives. */
  ghost predicate RoundTrips(ds: seq<Directive>) {
    var p := ParseConf(PrintAll(ds, 1), 1, false);
    p.Parsed? && EraseAll(p.subs) == EraseAll(ds)
  }

  lemma PlainRoundTrips(ds: seq<Directive>)
    requires PlainAll(ds)
    ensures RoundTrips(ds)
  {
    ReadsAll(ds, 1, "", 1, false);
    assert PrintAll(ds, 1) + "" == PrintAll(ds, 1);
    assert ParseConf("", 1, false) == Parsed([], "", 1);
  }

  // ---------------------------------------------------- round trip implies plain

  /** The number of quote characters.  Reading a quoted word loses two of them,
      writing loses none: that is how a tree that needs quotes gives itself
      away. */
  function Quotes(s: string): nat {
    if s == "" then 0 else Quotes(s[1..]) + if s[0] == '"' || s[0] == '\'' then 1 else 0
  }

  function QuotesIn(ws: seq<string>): nat {
    if ws == [] then 0 else Quotes(ws[0]) + QuotesIn(ws[1..])
  }

  function QuotesOf(d: Directive): nat
    decreases d, 0
  {
    Quotes(d.name) + QuotesIn(d.args) + QuotesBelow(d.subs)
  }

  function QuotesBelow(ds: seq<Directive>): nat
    decreases ds, 1
  {
    if ds == [] then 0 else QuotesOf(ds[0]) + QuotesBelow(ds[1..])
  }

  lemma {:induction false} QuotesConcat(a: string, b: string)
    ensures Quotes(a + b) == Quotes(a) + Quotes(b)
  {
    if a == "" {
      assert a + b == b;
    } else {
      assert (a + b)[1..] == a[1..] + b;
      QuotesConcat(a[1..], b);
    }
  }

  lemma QuotesOne(ch: char)
    ensures Quotes([ch]) == if ch == '"' || ch == '\'' then 1 else 0
  {
    assert |[ch][1..]| == 0;
  }

  lemma {:induction false} QuotesInConcat(a: seq<string>, b: seq<string>)
    ensures QuotesIn(a + b) == QuotesIn(a) + QuotesIn(b)
  {
    if a == [] {
      assert a + b == b;
    } else {
      assert (a + b)[1..] == a[1..] + b;
      QuotesInConcat(a[1..], b);
    }
  }

  lemma QuotesInOne(w: string)
    ensures QuotesIn([w]) == Quotes(w)
  {
    var one: seq<string> := [w];
    assert |one[1..]| == 0;
  }

  /** What has been read of a word that is not in quotes. */
  predicate BareWord(w: string) {
    && w != "" && w[0] != '}' && w[0] != '#' && w[0] != '"' && w[0] != '\''
    && forall i :: 0 <= i < |w| ==> !IsSpace(w[i]) && w[i] != ';' && w[i] != '{'
  }

  lemma {:induction false} CStringQuotes(w: string)
    ensures Quotes(CString(w)) <= Quotes(w)
    ensures CString(w) <= w && forall i :: 0 <= i < |CString(w)| ==> CString(w)[i] != '\0'
  {
    if w == "" || w[0] == '\0' {
    } else {
      CStringQuotes(w[1..]);
      assert CString(w)[1..] == CString(w[1..]) && w == [w[0]] + w[1..];
    }
  }

  lemma PushQuotes(args: seq<string>, word: string)
    ensures QuotesIn(Push(args, word)) <= QuotesIn(args) + Quotes(word)
    ensures PlainWords(args) && BareWord(word) ==> PlainWords(Push(args, word))
  {
    var w := CString(word);
    CStringQuotes(word);
    QuotesInConcat(args, [w]);
    QuotesInOne(w);
    if BareWord(word) && w != "" {
      assert forall i :: 0 <= i < |w| ==> w[i] == word[i];
    }
  }

  predicate InWord(mode: Mode) {
    mode == Bare || mode == Double || mode == Single
  }

  /** Reading makes no quotes; if it loses none, no word was in quotes. */
  ghost predicate Loses(t: Token, args: seq<string>, before: nat, plain: bool) {
    && QuotesIn(t.args) + Quotes(t.rest) <= before
    && (QuotesIn(t.args) + Quotes(t.rest) == before && PlainWords(args) && plain ==> PlainWords(t.args))
  }

  lemma {:induction false} LexQuotes(s: string, args: seq<string>, word: string, mode: Mode, line: int, start: int)
    requires !InWord(mode) ==> word == ""
    ensures Loses(Lex(s, args, word, mode, line, start), args, QuotesIn(args) + Quotes(word) + Quotes(s),
                  if mode == Bare then BareWord(word) else mode != Double && mode != Single)
    decreases |s|, 1
  {
    if s == "" {
    } else {
      match mode
      case Comment => LexBetweenQuotes(s, args, mode, line, start);
      case Closed => LexBetweenQuotes(s, args, mode, line, start);
      case Gap => LexGapQuotes(s, args, line, start);
      case Bare => LexBareQuotes(s, args, word, line, start);
      case _ => LexQuotedQuotes(s, args, word, mode, line, start);
    }
  }

  /** After a word in quotes, and in comments, characters are skipped. */
  lemma {:induction false} LexBetweenQuotes(s: string, args: seq<string>, mode: Mode, line: int, start: int)
    requires s != "" && (mode == Comment || mode == Closed)
    ensures Loses(Lex(s, args, "", mode, line, start), args, QuotesIn(args) + Quotes("") + Quotes(s), true)
    decreases |s|, 0
  {
    hide QuotesIn, PlainWords;
    var ch, rest := s[0], s[1..];
    var line' := if ch == '\n' then line + 1 else line;
    var m := if mode == Closed || ch == '\n' then Gap else Comment;
    LexQuotes(rest, args, "", m, line', start);
  }

  /** A quote that opens a word is lost; the first character of a bare word is
      none. */
  lemma {:induction false} LexGapQuotes(s: string, args: seq<string>, line: int, start: int)
    requires s != ""
    ensures Loses(Lex(s, args, "", Gap, line, start), args, QuotesIn(args) + Quotes("") + Quotes(s), true)
    decreases |s|, 0
  {
    var ch, rest := s[0], s[1..];
    var line' := if ch == '\n' then line + 1 else line;
    QuotesOne(ch);
    var m := if ch == '#' then Comment else if ch == '"' then Double else if ch == '\'' then Single else if IsSpace(ch) then Gap else Bare;
    LexQuotes(rest, args, if m == Bare then [ch] else "", m, line', start);
  }

  lemma {:induction false} LexBareQuotes(s: string, args: seq<string>, word: string, line: int, start: int)
    requires s != ""
    ensures Loses(Lex(s, args, word, Bare, line, start), args, QuotesIn(args) + Quotes(word) + Quotes(s), BareWord(word))
    decreases |s|, 0
  {
    var ch, rest := s[0], s[1..];
    var line' := if ch == '\n' then line + 1 else line;
    var start' := if start == 0 then line' else start;
    PushQuotes(args, word);
    if IsSpace(ch) {
      LexQuotes(rest, Push(args, word), "", Gap, line', start');
    } else if ch != ';' && ch != '{' {
      QuotesOne(ch);
      QuotesConcat(word, [ch]);
      LexQuotes(rest, args, word + [ch], Bare, line', start');
    }
  }

  lemma {:induction false} LexQuotedQuotes(s: string, args: seq<string>, word: string, mode: Mode, line: int, start: int)
    requires s != "" && (mode == Double || mode == Single)
    ensures Loses(Lex(s, args, word, mode, line, start), args, QuotesIn(args) + Quotes(word) + Quotes(s), false)
    decreases |s|, 0
  {
    var ch, rest := s[0], s[1..];
    var line' := if ch == '\n' then line + 1 else line;
    var start' := if start == 0 then line' else start;
    if ch == (if mode == Double then '"' else '\'') {
      PushQuotes(args, word);
      LexQuotes(rest, Push(args, word), "", Closed, line', start');
    } else {
      QuotesOne(ch);
      QuotesConcat(word, [ch]);
      LexQuotes(rest, args, word + [ch], mode, line', start');
    }
  }

  lemma FirstQuotes(d: Directive, p: Parsed)
    requires p.Parsed?
    ensures QuotesBelow(Before(d, p).subs) == QuotesOf(d) + QuotesBelow(p.subs)
    ensures PlainAll(Before(d, p).subs) <==> Plain(d) && PlainAll(p.subs)
  {
    assert ([d] + p.subs)[1..] == p.subs;
  }

  lemma {:induction false} ParseQuotes(s: string, line: int, block: bool)
    ensures var p := ParseConf(s, line, block);
      p.Parsed? ==>
        && QuotesBelow(p.subs) + Quotes(p.rest) <= Quotes(s)
        && (QuotesBelow(p.subs) + Quotes(p.rest) == Quotes(s) ==> PlainAll(p.subs))
    decreases |s|
  {
    LexQuotes(s, [], "", Gap, line, 0);
    var t := Lex(s, [], "", Gap, line, 0);
    if t.args == [] || (t.code != Semicolon && t.code != BlockStart) {
    } else if t.code == Semicolon {
      ParseQuotes(t.rest, t.line, block);
      WordsQuotes(t, []);
      var p := ParseConf(t.rest, t.line, block);
      if p.Parsed? {
        FirstQuotes(Directive(t.args[0], t.args[1..], [], t.start), p);
      }
    } else {
      ParseQuotes(t.rest, t.line, true);
      var inner := ParseConf(t.rest, t.line, true);
      if inner.Parsed? {
        ParseQuotes(inner.rest, inner.line, block);
        WordsQuotes(t, inner.subs);
        var p := ParseConf(inner.rest, inner.line, block);
        if p.Parsed? {
          FirstQuotes(Directive(t.args[0], t.args[1..], inner.subs, t.start), p);
        }
      }
    }
  }

  lemma WordsQuotes(t: Token, subs: seq<Directive>)
    requires t.args != []
    ensures var d := Directive(t.args[0], t.args[1..], subs, t.start);
      QuotesOf(d) == QuotesIn(t.args) + QuotesBelow(subs) && (PlainWords(t.args) && PlainAll(subs) ==> Plain(d))
  {
  }

  lemma {:induction false} IndentQuotes(n: nat)
    ensures Quotes(Indent(n)) == 0
  {
    if n == 0 {
    } else {
      IndentQuotes(n - 1);
      QuotesConcat("    ", Indent(n - 1));
      QuotesConcat("  ", "  ");
      QuotesConcat(" ", " ");
      QuotesOne(' ');
      assert "    " == "  " + "  " && "  " == " " + " ";
    }
  }

  lemma {:induction false} JoinQuotes(ws: seq<string>)
    ensures Quotes(Join(ws)) == QuotesIn(ws)
  {
    if ws == [] {
    } else if |ws| == 1 {
      assert ws[1..] == [];
    } else {
      JoinQuotes(ws[1..]);
      QuotesOne(' ');
      QuotesConcat(ws[0] + " ", Join(ws[1..]));
      QuotesConcat(ws[0], " ");
    }
  }

  lemma HeadQuotes(d: Directive)
    ensures Quotes(Head(d)) == Quotes(d.name) + QuotesIn(d.args)
  {
    HeadWords(d);
    JoinQuotes([d.name] + d.args);
    QuotesInConcat([d.name], d.args);
    QuotesInOne(d.name);
    var end := if d.subs == [] then ";" else " {";
    QuotesConcat(Join([d.name] + d.args), end);
    QuotesOne(';');
    QuotesOne(' ');
    QuotesOne('{');
    QuotesConcat(" ", "{");
    assert " {" == " " + "{";
  }

  lemma {:induction false} PrintQuotes(d: Directive, level: nat)
    requires level > 0
    ensures Quotes(Print(d, level)) == QuotesOf(d)
    decreases d, 0
  {
    var a, h, c := Indent(level - 1), Head(d), PrintAll(d.subs, level + 1);
    var z := if d.subs == [] then "" else a + "}" + "\n";
    IndentQuotes(level - 1);
    HeadQuotes(d);
    PrintAllQuotes(d.subs, level + 1);
    QuotesOne('}');
    QuotesOne('\n');
    QuotesConcat(a, "}");
    QuotesConcat(a + "}", "\n");
    QuotesConcat(a, h);
    QuotesConcat(a + h, "\n");
    QuotesConcat(a + h + "\n", c);
    QuotesConcat(a + h + "\n" + c, z);
  }

  lemma {:induction false} PrintAllQuotes(ds: seq<Directive>, level: nat)
    requires level > 0
    ensures Quotes(PrintAll(ds, level)) == QuotesBelow(ds)
    decreases ds, 1
  {
    if ds == [] {
    } else {
      PrintQuotes(ds[0], level);
      PrintAllQuotes(ds[1..], level);
      QuotesConcat(Print(ds[0], level), PrintAll(ds[1..], level));
    }
  }

  lemma {:induction false} EraseKeeps(ds: seq<Directive>)
    ensures QuotesBelow(EraseAll(ds)) == QuotesBelow(ds) && (PlainAll(EraseAll(ds)) <==> PlainAll(ds))
    decreases ds
  {
    if ds == [] {
    } else {
      EraseKeeps(ds[0].subs);
      EraseKeeps(ds[1..]);
      assert EraseAll(ds)[1..] == EraseAll(ds[1..]);
    }
  }

  lemma RoundTripsArePlain(ds: seq<Directive>)
    requires RoundTrips(ds)
    ensures PlainAll(ds)
  {
    var p := ParseConf(PrintAll(ds, 1), 1, false);
    ParseQuotes(PrintAll(ds, 1), 1, false);
    PrintAllQuotes(ds, 1);
    EraseKeeps(ds);
    EraseKeeps(p.subs);
  }

  /** A tree is reproduced by reading its written form, up to line numbers,
      exactly if all its words are plain. */
  lemma RoundTripsExactly(ds: seq<Directive>)
    ensures RoundTrips(ds) <==> PlainAll(ds)
  {
    if PlainAll(ds) {
      PlainRoundTrips(ds);
    }
    if RoundTrips(ds) {
      RoundTripsArePlain(ds);
    }
  }

  // --------------------------------------------- a tree that is not kept

  lemma {:induction false} LexInside(w: string, s: string, args: seq<string>, word: string, line: int, start: int)
    requires '"' !in w
    ensures exists line', start' :: Lex(w + "\"" + s, args, word, Double, line, start) == Lex(s, Push(args, word + w), "", Closed, line', start')
    decreases |w|
  {
    var line1 := if w != "" && w[0] == '\n' then line + 1 else line;
    var start1 := if start == 0 then line1 else start;
    if w == "" {
      assert (w + "\"" + s)[1..] == s && word + w == word;
      assert Lex(w + "\"" + s, args, word, Double, line, start) == Lex(s, Push(args, word + w), "", Closed, line1, start1);
    } else {
      assert (w + "\"" + s)[1..] == w[1..] + "\"" + s && word + [w[0]] + w[1..] == word + w;
      LexInside(w[1..], s, args, word + [w[0]], line1, start1);
      assert Lex(w + "\"" + s, args, word, Double, line, start) == Lex(w[1..] + "\"" + s, args, word + [w[0]], Double, line1, start1);
    }
  }

  lemma {:induction false} CStringWhole(w: string)
    requires '\0' !in w
    ensures CString(w) == w
  {
    if w == "" {
    } else {
      assert w == [w[0]] + w[1..];
      CStringWhole(w[1..]);
    }
  }

  lemma LexQuoted(w: string, args: seq<string>, line: int, start: int)
    requires w != "" && '"' !in w && '\0' !in w
    ensures SameToken(Lex("\"" + w + "\"" + ";", args, "", Gap, line, start), Token(Semicolon, args + [w], "", 0, 0))
  {
    var tail := w + "\"" + ";";
    assert "\"" + w + "\"" + ";" == ['"'] + tail && (['"'] + tail)[1..] == tail;
    LexInside(w, ";", args, "", line, start);
    CStringWhole(w);
    assert "" + w == w && ";"[1..] == "";
  }

  /** A quoted word that is not plain is read, and does not survive being
      written: `a "b c";` is an example. */
  lemma QuotedWordIsLost(name: string, w: string)
    requires PlainWord(name) && w != "" && '"' !in w && '\0' !in w && !PlainWord(w)
    ensures var p := ParseConf(name + " " + ("\"" + w + "\"" + ";"), 1, false);
      p.Parsed? && EraseAll(p.subs) == [Directive(name, [w], [], 0)] && !RoundTrips(p.subs)
  {
    var s := name + " " + ("\"" + w + "\"" + ";");
    LexThenSpace(name, "\"" + w + "\"" + ";", [], 1, 0);
    LexQuoted(w, [name], 1, 0);
    assert [] + [name] == [name] && [name] + [w] == [name, w];
    var t := Lex(s, [], "", Gap, 1, 0);
    assert t.args == [name, w] && t.args[1..] == [w] && t.rest == "" && t.code == Semicolon;
    var d := Directive(name, [w], [], t.start);
    assert ParseConf("", t.line, false) == Parsed([], "", t.line);
    assert [d] + [] == [d];
    assert ParseConf(s, 1, false) == Before(d, ParseConf("", t.line, false));
    EraseOne(d);
    assert d.args[0] == w && !PlainWords(d.args);
    RoundTripsExactly([d]);
  }

  lemma QuotedExample()
    ensures var p := ParseConf("a \"b c\";", 1, false); p.Parsed? && !RoundTrips(p.subs)
  {
    assert "b c"[1] == ' ' && !PlainWord("b c");
    assert "a \"b c\";" == "a" + " " + ("\"" + "b c" + "\"" + ";");
    QuotedWordIsLost("a", "b c");
  }
}
