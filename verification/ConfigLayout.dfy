/** The layout of a configuration file: spaces, comments, bare words and quoted
    words, in any order that keeps words apart, are read for what they are
    (srs_app_config.cpp). */
module ConfigLayout {
  import opened ConfigTree
  import opened Sequences
  import opened ConfigText

  /** A piece of the text of a directive. */
  datatype Piece =
    | Space(ch: char)
    | Remark(text: string)
    | Bareword(word: string)
    | Quotation(word: string, quote: char)

  function TextOf(p: Piece): string {
    match p
    case Space(ch) => [ch]
    case Remark(text) => "#" + text + "\n"
    case Bareword(word) => word
    case Quotation(word, quote) => [quote] + word + [quote]
  }

  function Text(ps: seq<Piece>): string {
    if ps == [] then "" else TextOf(ps[0]) + Text(ps[1..])
  }

  /** A comment ends with its line; a bare word has no space in it, and does not
      look like the end of a directive or the start of something else; a quoted
      word does not contain its quote. */
  predicate Fine(p: Piece) {
    match p
    case Space(ch) => ch in " \t\r\n"
    case Remark(text) => '\n' !in text
    case Bareword(word) => word != "" && word[0] !in "}#\"'" && forall i :: 0 <= i < |word| ==> word[i] !in " \t\r\n;{"
    case Quotation(word, quote) => quote in "\"'" && quote !in word
  }

  predicate IsWord(p: Piece) {
    p.Bareword? || p.Quotation?
  }

  /** Fine pieces, with a space after every word but the last piece. */
  predicate Laid(ps: seq<Piece>) {
    && (forall i :: 0 <= i < |ps| ==> Fine(ps[i]))
    && (forall i :: 0 <= i < |ps| - 1 && IsWord(ps[i]) ==> ps[i + 1].Space?)
  }

  /** The words, as C strings; empty ones do not count. */
  function WordsOf(ps: seq<Piece>): seq<string> {
    if ps == [] then []
    else (if IsWord(ps[0]) && CString(ps[0].word) != "" then [CString(ps[0].word)] else []) + WordsOf(ps[1..])
  }

  function Lines(s: string): nat {
    if s == "" then 0 else Lines(s[1..]) + if s[0] == '\n' then 1 else 0
  }

  lemma {:induction false} LinesConcat(a: string, b: string)
    ensures Lines(a + b) == Lines(a) + Lines(b)
  {
    if a == "" {
      assert a + b == b;
    } else {
      assert (a + b)[1..] == a[1..] + b;
      LinesConcat(a[1..], b);
    }
  }

  // ----------------------------------------------------------- one piece

  lemma {:induction false} InRemark(text: string, s: string, args: seq<string>, line: int, start: int)
    requires '\n' !in text
    ensures Lex(text + "\n" + s, args, "", Comment, line, start) == Lex(s, args, "", Gap, line + 1, start)
    decreases |text|
  {
    var all := text + "\n" + s;
    if text == "" {
      assert all[0] == '\n' && all[1..] == s;
    } else {
      assert all[0] == text[0] && all[1..] == text[1..] + "\n" + s && text[0] in text;
      InRemark(text[1..], s, args, line, start);
    }
  }

  /** Between words, a comment is skipped up to the end of its line, whatever it
      contains. */
  lemma CommentSkipped(text: string, s: string, args: seq<string>, line: int, start: int)
    requires '\n' !in text
    ensures Lex("#" + text + "\n" + s, args, "", Gap, line, start) == Lex(s, args, "", Gap, line + 1, start)
  {
    var all := "#" + text + "\n" + s;
    assert all[0] == '#' && all[1..] == text + "\n" + s;
    InRemark(text, s, args, line, start);
  }

  /** A comment in front of directives is as good as an empty line. */
  lemma CommentIgnored(text: string, s: string, line: int, block: bool)
    requires '\n' !in text
    ensures ParseConf("#" + text + "\n" + s, line, block) == ParseConf(s, line + 1, block)
  {
    CommentSkipped(text, s, [], line, 0);
  }

  function StartAt(start: int, line: int): int {
    if start == 0 then line else start
  }

  lemma {:induction false} InBareword(w: string, rest: string, s: string, args: seq<string>, line: int, start: int)
    requires forall i :: 0 <= i < |rest| ==> rest[i] !in " \t\r\n;{"
    ensures Lex(rest + s, args, w, Bare, line, start) ==
      Lex(s, args, w + rest, Bare, line, if rest == "" then start else StartAt(start, line))
    decreases |rest|
  {
    var all := rest + s;
    if rest == "" {
      assert all == s && w + rest == w;
    } else {
      assert all[0] == rest[0] && all[1..] == rest[1..] + s && w + rest == w + [rest[0]] + rest[1..];
      InBareword(w + [rest[0]], rest[1..], s, args, line, StartAt(start, line));
    }
  }

  /** A bare word is read as it is; `s` is what follows it. */
  lemma BarewordRead(w: string, s: string, args: seq<string>, line: int, start: int)
    requires Fine(Bareword(w))
    ensures Lex(w + s, args, "", Gap, line, start) == Lex(s, args, w, Bare, line, if |w| == 1 then start else StartAt(start, line))
  {
    var all := w + s;
    assert all[0] == w[0] && all[1..] == w[1..] + s && w == [w[0]] + w[1..];
    InBareword([w[0]], w[1..], s, args, line, start);
  }

  lemma {:induction false} InQuotation(w: string, rest: string, quote: char, s: string, args: seq<string>, line: int, start: int)
    requires quote !in rest && (quote == '"' || quote == '\'') && line > 0
    ensures Lex(rest + [quote] + s, args, w, if quote == '"' then Double else Single, line, start) ==
      Lex(s, Push(args, w + rest), "", Closed, line + Lines(rest),
          StartAt(start, if rest != "" && rest[0] == '\n' then line + 1 else line))
    decreases |rest|
  {
    var all := rest + [quote] + s;
    if rest == "" {
      assert all[0] == quote && all[1..] == s && w + rest == w;
    } else {
      assert all[0] == rest[0] && all[1..] == rest[1..] + [quote] + s && rest[0] in rest;
      assert w + rest == w + [rest[0]] + rest[1..];
      var line' := if rest[0] == '\n' then line + 1 else line;
      InQuotation(w + [rest[0]], rest[1..], quote, s, args, line', StartAt(start, line'));
    }
  }

  /** A quoted word is read as what is between the quotes. */
  lemma QuotationRead(w: string, quote: char, s: string, args: seq<string>, line: int, start: int)
    requires Fine(Quotation(w, quote)) && line > 0
    ensures Lex([quote] + w + [quote] + s, args, "", Gap, line, start) ==
      Lex(s, if CString(w) == "" then args else args + [CString(w)], "", Closed, line + Lines(w),
          StartAt(start, if w != "" && w[0] == '\n' then line + 1 else line))
  {
    var all := [quote] + w + [quote] + s;
    assert all[0] == quote && all[1..] == w + [quote] + s;
    InQuotation("", w, quote, s, args, line, start);
    assert "" + w == w;
  }

  /** A word without a NUL is its own C string. */
  lemma {:induction false} CStringWhole(w: string)
    ensures '\0' !in w ==> CString(w) == w
  {
    if w == "" {
    } else {
      CStringWhole(w[1..]);
      assert w == [w[0]] + w[1..];
    }
  }

  // ------------------------------------------------------------ many pieces

  /** The line of the second character of the first word, or 0 if there is none:
      that is when the tokenizer looks. */
  function FirstLine(ps: seq<Piece>, line: int): int {
    if ps == [] then 0
    else match ps[0]
      case Space(ch) => FirstLine(ps[1..], line + Lines([ch]))
      case Remark(_) => FirstLine(ps[1..], line + 1)
      case Bareword(w) => if |w| == 1 && |ps| > 1 && ps[1] == Space('\n') then line + 1 else line
      case Quotation(w, _) => if w != "" && w[0] == '\n' then line + 1 else line
  }

  function StartOf(start: int, ps: seq<Piece>, line: int): int {
    if start == 0 then FirstLine(ps, line) else start
  }

  predicate Complete(ps: seq<Piece>) {
    Laid(ps) && (ps == [] || !IsWord(ps[|ps| - 1]))
  }

  lemma LaidTail(ps: seq<Piece>, n: nat)
    requires n <= |ps|
    ensures Laid(ps) ==> Laid(ps[n..]) && Laid(ps[..n])
    ensures Complete(ps) ==> Complete(ps[n..])
  {
    assert forall i :: 0 <= i < |ps[n..]| ==> ps[n..][i] == ps[n + i];
    assert forall i :: 0 <= i < |ps[..n]| ==> ps[..n][i] == ps[i];
  }

  lemma LinesOne(ch: char)
    ensures Lines([ch]) == if ch == '\n' then 1 else 0
  {
    assert |[ch][1..]| == 0;
  }

  lemma {:induction false} NoLines(w: string)
    requires '\n' !in w
    ensures Lines(w) == 0
  {
    if w == "" {
    } else {
      assert w[0] in w && forall ch :: ch in w[1..] ==> ch in w;
      NoLines(w[1..]);
    }
  }

  lemma LinesOf(p: Piece)
    requires Fine(p)
    ensures Lines(TextOf(p)) == match p case Space(ch) => Lines([ch]) case Remark(_) => 1 case Bareword(_) => 0 case Quotation(w, _) => Lines(w)
  {
    match p
    case Space(ch) => LinesOne(ch);
    case Remark(text) =>
      NoLines(text);
      LinesConcat("#" + text, "\n");
      LinesConcat("#", text);
      LinesOne('#');
      LinesOne('\n');
    case Bareword(w) =>
      assert forall ch :: ch in w ==> ch != '\n';
      NoLines(w);
    case Quotation(w, quote) =>
      LinesConcat([quote] + w, [quote]);
      LinesConcat([quote], w);
      LinesOne(quote);
  }

  lemma SpaceAfter(w: string, ch: char, s: string, args: seq<string>, line: int, start: int)
    requires IsSpace(ch)
    ensures var line' := line + Lines([ch]);
      Lex([ch] + s, args, w, Bare, line, start) == Lex(s, Push(args, w), "", Gap, line', StartAt(start, line'))
  {
    LinesOne(ch);
    assert ([ch] + s)[0] == ch && ([ch] + s)[1..] == s;
  }

  /** A word and the space after it. */
  lemma WordRead(p: Piece, ch: char, s: string, args: seq<string>, line: int, start: int)
    requires Fine(p) && IsWord(p) && Fine(Space(ch)) && line > 0
    ensures Lex(TextOf(p) + [ch] + s, args, "", Gap, line, start) ==
      Lex(s, args + WordsOf([p]), "", Gap, line + Lines(TextOf(p)) + Lines([ch]), StartOf(start, [p, Space(ch)], line))
  {
    LinesOf(p);
    WordsOne(p);
    Regroup(args, [], args);
    Regroup(TextOf(p), [ch], s);
    hide Lex, Lines, CString, Fine, WordsOf, FirstLine;
    if p.Bareword? {
      BareThen(p.word, ch, s, args, line, start);
    } else {
      QuotedThen(p.word, p.quote, ch, s, args, line, start);
    }
  }

  lemma BareThen(w: string, ch: char, s: string, args: seq<string>, line: int, start: int)
    requires Fine(Bareword(w)) && Fine(Space(ch)) && line > 0
    ensures Lex(w + ([ch] + s), args, "", Gap, line, start) ==
      Lex(s, if CString(w) == "" then args else args + [CString(w)], "", Gap, line + Lines([ch]), StartOf(start, [Bareword(w), Space(ch)], line))
  {
    LinesOne(ch);
    BarewordRead(w, [ch] + s, args, line, start);
    SpaceAfter(w, ch, s, args, line, if |w| == 1 then start else StartAt(start, line));
    hide Lex, Lines, CString;
  }

  lemma QuotedThen(w: string, quote: char, ch: char, s: string, args: seq<string>, line: int, start: int)
    requires Fine(Quotation(w, quote)) && Fine(Space(ch)) && line > 0
    ensures Lex([quote] + w + [quote] + ([ch] + s), args, "", Gap, line, start) ==
      Lex(s, if CString(w) == "" then args else args + [CString(w)], "", Gap, line + Lines(w) + Lines([ch]),
          StartOf(start, [Quotation(w, quote), Space(ch)], line))
  {
    hide Lex, Lines, CString, Fine;
    QuotationRead(w, quote, [ch] + s, args, line, start);
    SpaceClosed(ch, s, if CString(w) == "" then args else args + [CString(w)], line + Lines(w),
                StartAt(start, if w != "" && w[0] == '\n' then line + 1 else line));
  }

  lemma SpaceClosed(ch: char, s: string, args: seq<string>, line: int, start: int)
    requires Fine(Space(ch)) && start != 0
    ensures Lex([ch] + s, args, "", Closed, line, start) == Lex(s, args, "", Gap, line + Lines([ch]), start)
  {
    LinesOne(ch);
    assert ([ch] + s)[0] == ch && ([ch] + s)[1..] == s;
  }

  lemma WordsOne(p: Piece)
    ensures WordsOf([p]) == if IsWord(p) && CString(p.word) != "" then [CString(p.word)] else []
  {
    var one: seq<Piece> := [p];
    assert one[1..] == [];
  }

  lemma {:induction false} WordsConcat(a: seq<Piece>, b: seq<Piece>)
    ensures WordsOf(a + b) == WordsOf(a) + WordsOf(b)
  {
    if a == [] {
      assert a + b == b;
    } else {
      assert (a + b)[0] == a[0] && (a + b)[1..] == a[1..] + b;
      WordsConcat(a[1..], b);
      hide CString, IsWord;
      Regroup(if IsWord(a[0]) && CString(a[0].word) != "" then [CString(a[0].word)] else [], WordsOf(a[1..]), WordsOf(b));
    }
  }

  lemma {:induction false} TextConcat(a: seq<Piece>, b: seq<Piece>)
    ensures Text(a + b) == Text(a) + Text(b)
  {
    if a == [] {
      assert a + b == b;
    } else {
      assert (a + b)[0] == a[0] && (a + b)[1..] == a[1..] + b;
      TextConcat(a[1..], b);
      hide TextOf;
      Regroup(TextOf(a[0]), Text(a[1..]), Text(b));
    }
  }

  lemma TextOne(p: Piece)
    ensures Text([p]) == TextOf(p)
  {
    var one: seq<Piece> := [p];
    assert one[1..] == [];
  }

  /** A first piece that is no word. */
  lemma HeadSpace(ps: seq<Piece>, s: string, line: int)
    requires ps != [] && Fine(ps[0]) && !IsWord(ps[0])
    ensures var line' := line + Lines(TextOf(ps[0]));
      && WordsOf(ps) == WordsOf(ps[1..]) && FirstLine(ps, line) == FirstLine(ps[1..], line')
      && Text(ps) + s == TextOf(ps[0]) + (Text(ps[1..]) + s) && line + Lines(Text(ps)) == line' + Lines(Text(ps[1..]))
  {
    LinesOf(ps[0]);
    LinesConcat(TextOf(ps[0]), Text(ps[1..]));
    TextFirst(ps);
    assert [] + WordsOf(ps[1..]) == WordsOf(ps[1..]);
    hide Lines, Text, TextOf, Fine, CString;
    Regroup(TextOf(ps[0]), Text(ps[1..]), s);
  }

  lemma HeadWords(ps: seq<Piece>, line: int)
    requires |ps| > 1 && IsWord(ps[0]) && ps[1].Space? && line > 0
    ensures WordsOf(ps) == WordsOf([ps[0]]) + WordsOf(ps[2..])
    ensures FirstLine(ps, line) == FirstLine([ps[0], ps[1]], line) > 0
  {
    WordsOne(ps[0]);
    assert ps[1..][1..] == ps[2..] && WordsOf(ps[1..]) == WordsOf(ps[2..]);
  }

  lemma TextFirst(ps: seq<Piece>)
    requires ps != []
    ensures Text(ps) == TextOf(ps[0]) + Text(ps[1..])
  {
  }

  lemma FourParts(a: string, b: string, c: string, d: string)
    ensures (a + (b + c)) + d == a + b + (c + d)
  {
  }

  /** A first piece that is a word, and the space after it. */
  lemma HeadWord(ps: seq<Piece>, s: string, line: int)
    requires |ps| > 1 && IsWord(ps[0]) && ps[1].Space?
    ensures var p, ch := ps[0], ps[1].ch;
      && Text(ps) + s == TextOf(p) + [ch] + (Text(ps[2..]) + s)
      && line + Lines(Text(ps)) == line + Lines(TextOf(p)) + Lines([ch]) + Lines(Text(ps[2..]))
  {
    var p, ch := ps[0], ps[1].ch;
    assert ps[1..][1..] == ps[2..] && Text(ps[1..]) == [ch] + Text(ps[2..]);
    hide Lines, Text, TextOf;
    assert Text(ps) == TextOf(p) + Text(ps[1..]) by { TextFirst(ps); }
    LinesConcat(TextOf(p), [ch] + Text(ps[2..]));
    LinesConcat([ch], Text(ps[2..]));
    FourParts(TextOf(p), [ch], Text(ps[2..]), s);
  }

  lemma FirstTwo(ps: seq<Piece>)
    requires Complete(ps) && ps != []
    ensures Fine(ps[0]) && (IsWord(ps[0]) ==> |ps| > 1 && ps[1].Space? && Fine(ps[1]))
  {
  }

  lemma SpaceRead(p: Piece, s: string, args: seq<string>, line: int, start: int)
    requires Fine(p) && !IsWord(p)
    ensures Lex(TextOf(p) + s, args, "", Gap, line, start) == Lex(s, args, "", Gap, line + Lines(TextOf(p)), start)
  {
    LinesOf(p);
    match p
    case Space(ch) =>
      LinesOne(ch);
      assert ([ch] + s)[0] == ch && ([ch] + s)[1..] == s;
    case Remark(text) => CommentSkipped(text, s, args, line, start);
  }

  /** The pieces ps, with s after them, are read as their words. */
  ghost predicate ReadsPieces(ps: seq<Piece>, s: string, args: seq<string>, line: int, start: int) {
    Lex(Text(ps) + s, args, "", Gap, line, start) ==
      Lex(s, args + WordsOf(ps), "", Gap, line + Lines(Text(ps)), StartOf(start, ps, line))
  }

  lemma SpaceThen(ps: seq<Piece>, s: string, args: seq<string>, line: int, start: int)
    requires ps != [] && Fine(ps[0]) && !IsWord(ps[0])
    requires ReadsPieces(ps[1..], s, args, line + Lines(TextOf(ps[0])), start)
    ensures ReadsPieces(ps, s, args, line, start)
  {
    hide Lex, Lines, Fine, Text, FirstLine, WordsOf;
    HeadSpace(ps, s, line);
    SpaceRead(ps[0], Text(ps[1..]) + s, args, line, start);
  }

  lemma WordThen(ps: seq<Piece>, s: string, args: seq<string>, line: int, start: int)
    requires |ps| > 1 && IsWord(ps[0]) && ps[1].Space? && line > 0 && Fine(ps[0]) && Fine(ps[1])
    requires ReadsPieces(ps[2..], s, args + WordsOf([ps[0]]), line + Lines(TextOf(ps[0])) + Lines([ps[1].ch]),
                         StartOf(start, [ps[0], ps[1]], line))
    ensures ReadsPieces(ps, s, args, line, start)
  {
    hide Lex, Lines, Fine, Text, FirstLine, WordsOf;
    HeadWords(ps, line);
    HeadWord(ps, s, line);
    WordRead(ps[0], ps[1].ch, Text(ps[2..]) + s, args, line, start);
    Regroup(args, WordsOf([ps[0]]), WordsOf(ps[2..]));
  }

  lemma NothingRead(s: string, args: seq<string>, line: int, start: int)
    ensures ReadsPieces([], s, args, line, start)
  {
    assert Text([]) + s == s && args + WordsOf([]) == args;
  }

  /** Pieces up to a space or the end of a comment are read as their words. */
  lemma {:induction false} PiecesRead(ps: seq<Piece>, s: string, args: seq<string>, line: int, start: int)
    requires Complete(ps) && line > 0
    ensures ReadsPieces(ps, s, args, line, start)
    decreases |ps|
  {
    if ps == [] {
      NothingRead(s, args, line, start);
    } else {
      FirstTwo(ps);
      hide Complete, ReadsPieces, Lex, Lines, Text, FirstLine, WordsOf, TextOf, Fine, Laid;
      if IsWord(ps[0]) {
        LaidTail(ps, 2);
        PiecesRead(ps[2..], s, args + WordsOf([ps[0]]), line + Lines(TextOf(ps[0])) + Lines([ps[1].ch]),
                   StartOf(start, [ps[0], ps[1]], line));
        WordThen(ps, s, args, line, start);
      } else {
        LaidTail(ps, 1);
        PiecesRead(ps[1..], s, args, line + Lines(TextOf(ps[0])), start);
        SpaceThen(ps, s, args, line, start);
      }
    }
  }

  // ------------------------------------------------------------- a directive

  /** Only the first word and the space after it count. */
  lemma FirstOfWord(ps: seq<Piece>, line: int)
    requires |ps| > 1 && IsWord(ps[0]) && line > 0
    ensures FirstLine(ps, line) == FirstLine([ps[0], ps[1]], line) > 0
  {
  }

  lemma FirstLineSkips(ps: seq<Piece>, line: int)
    requires ps != [] && Fine(ps[0]) && !IsWord(ps[0])
    ensures FirstLine(ps, line) == FirstLine(ps[1..], line + Lines(TextOf(ps[0])))
    ensures Lines(Text(ps)) == Lines(TextOf(ps[0])) + Lines(Text(ps[1..]))
  {
    HeadSpace(ps, "", line);
  }

  lemma {:induction false} FirstLineConcat(a: seq<Piece>, p: Piece, line: int)
    requires Complete(a) && line > 0
    ensures FirstLine(a + [p], line) == StartOf(FirstLine(a, line), [p], line + Lines(Text(a)))
    decreases |a|
  {
    var all := a + [p];
    if a == [] {
      assert all == [p];
    } else {
      FirstTwo(a);
      LaidTail(a, 1);
      assert all[0] == a[0] && all[1..] == a[1..] + [p] && (|a| > 1 ==> all[1] == a[1]);
      hide Lines, Text, Complete, Fine, FirstLine, TextOf, Laid;
      if IsWord(a[0]) {
        FirstOfWord(a, line);
        FirstOfWord(all, line);
      } else {
        FirstLineSkips(a, line);
        FirstLineSkips(all, line);
        FirstLineConcat(a[1..], p, line + Lines(TextOf(a[0])));
      }
    }
  }

  predicate EndsHere(e: char) {
    e == ';' || e == '{'
  }

  function CodeOf(e: char): Code {
    if e == ';' then Semicolon else BlockStart
  }

  /** The last word of a directive, right before its end. */
  lemma LastWordRead(p: Piece, e: char, s: string, args: seq<string>, line: int, start: int)
    requires Fine(p) && IsWord(p) && EndsHere(e) && line > 0
    ensures Lex(TextOf(p) + [e] + s, args, "", Gap, line, start) ==
      Token(CodeOf(e), args + WordsOf([p]), s, line + Lines(TextOf(p)), StartOf(start, [p], line))
  {
    var rest := [e] + s;
    assert TextOf(p) + [e] + s == TextOf(p) + rest && rest[0] == e && rest[1..] == s;
    LinesOf(p);
    WordsOne(p);
    assert args + [] == args;
    match p
    case Bareword(w) => BarewordRead(w, rest, args, line, start);
    case Quotation(w, quote) => QuotationRead(w, quote, rest, args, line, start);
  }

  lemma EndRead(e: char, s: string, args: seq<string>, line: int, start: int)
    requires EndsHere(e) && args != []
    ensures Lex([e] + s, args, "", Gap, line, start) == Token(CodeOf(e), args, s, line, start)
  {
    assert ([e] + s)[0] == e && ([e] + s)[1..] == s;
  }

  /** A directive is read as its words, on the line of the first, whatever spaces,
      comments and quotes it is laid out with. */
  lemma DirectiveRead(ps: seq<Piece>, e: char, s: string, line: int)
    requires Laid(ps) && WordsOf(ps) != [] && EndsHere(e) && line > 0
    ensures Lex(Text(ps) + [e] + s, [], "", Gap, line, 0) ==
      Token(CodeOf(e), WordsOf(ps), s, line + Lines(Text(ps)), FirstLine(ps, line))
  {
    var last := |ps| - 1;
    var init, p := ps[..last], ps[last];
    assert ps == init + [p] && Fine(p);
    LaidTail(ps, last);
    Regroup([], [], WordsOf(ps));
    hide Lex, Lines, Laid, Fine, WordsOf, Text, FirstLine;
    Regroup(Text(ps), [e], s);
    if IsWord(p) {
      InitComplete(ps);
      LastWordThen(init, p, e, s, line);
    } else {
      PiecesRead(ps, [e] + s, [], line, 0);
      EndRead(e, s, WordsOf(ps), line + Lines(Text(ps)), FirstLine(ps, line));
    }
  }

  /** What comes before a last word ends with a space, or with a comment. */
  lemma InitComplete(ps: seq<Piece>)
    requires Laid(ps) && ps != [] && IsWord(ps[|ps| - 1])
    ensures Complete(ps[..|ps| - 1])
  {
    LaidTail(ps, |ps| - 1);
    var i := |ps| - 2;
    if i >= 0 {
      assert ps[i + 1].Space? || !IsWord(ps[i]);
    }
  }

  lemma LastWordThen(init: seq<Piece>, p: Piece, e: char, s: string, line: int)
    requires Complete(init) && Fine(p) && IsWord(p) && EndsHere(e) && line > 0
    ensures var ps := init + [p];
      Lex(Text(ps) + [e] + s, [], "", Gap, line, 0) == Token(CodeOf(e), WordsOf(ps), s, line + Lines(Text(ps)), FirstLine(ps, line))
  {
    hide Lex, Lines, Complete, Fine, WordsOf, Text, FirstLine;
    var rest, line' := TextOf(p) + [e] + s, line + Lines(Text(init));
    WordsConcat(init, [p]);
    TextConcat(init, [p]);
    TextOne(p);
    LinesConcat(Text(init), TextOf(p));
    assert Text(init + [p]) + [e] + s == Text(init) + rest;
    PiecesRead(init, rest, [], line, 0);
    Regroup([], [], WordsOf(init));
    assert Lex(Text(init) + rest, [], "", Gap, line, 0) == Lex(rest, WordsOf(init), "", Gap, line', FirstLine(init, line));
    LastWordRead(p, e, s, WordsOf(init), line', FirstLine(init, line));
    FirstLineConcat(init, p, line);
    assert Lines(Text(init + [p])) == Lines(Text(init)) + Lines(TextOf(p));
  }

  // ------------------------------------------------------- what is no layout

  lemma GluedRead(w: string, quote: char, ch: char, s: string, args: seq<string>, line: int, start: int)
    requires Fine(Quotation(w, quote)) && ch !in " \t\r\n;{" && line > 0
    ensures Lex([quote] + w + [quote] + ([ch] + s), args, "", Gap, line, start).code == Invalid
  {
    QuotationRead(w, quote, [ch] + s, args, line, start);
    assert ([ch] + s)[0] == ch;
  }

  lemma {:induction false} OpenRead(w: string, rest: string, quote: char, args: seq<string>, line: int, start: int)
    requires quote !in rest && (quote == '"' || quote == '\'')
    ensures Lex(rest, args, w, if quote == '"' then Double else Single, line, start).code == Invalid
    decreases |rest|
  {
    if rest == "" {
    } else {
      assert rest[0] in rest;
      var line' := if rest[0] == '\n' then line + 1 else line;
      OpenRead(w + [rest[0]], rest[1..], quote, args, line', StartAt(start, line'));
    }
  }

  lemma OpenQuoteRead(w: string, quote: char, args: seq<string>, line: int, start: int)
    requires Fine(Quotation(w, quote))
    ensures Lex([quote] + w, args, "", Gap, line, start).code == Invalid
  {
    assert ([quote] + w)[0] == quote && ([quote] + w)[1..] == w;
    OpenRead("", w, quote, args, line, start);
  }

  /** Anything but a space or an end right after a quoted word, a quote that is
      not closed, and a closing brace inside a directive are errors. */
  lemma Malformed(ps: seq<Piece>, w: string, quote: char, ch: char, s: string, line: int)
    requires Complete(ps) && Fine(Quotation(w, quote)) && ch !in " \t\r\n;{" && line > 0
    ensures Lex(Text(ps) + ([quote] + w + [quote] + ([ch] + s)), [], "", Gap, line, 0).code == Invalid
    ensures Lex(Text(ps) + ([quote] + w), [], "", Gap, line, 0).code == Invalid
    ensures WordsOf(ps) != [] ==> Lex(Text(ps) + (['}'] + s), [], "", Gap, line, 0).code == Invalid
  {
    hide Lex, Lines, Text, FirstLine, WordsOf, Complete, Fine;
    PiecesRead(ps, [quote] + w + [quote] + ([ch] + s), [], line, 0);
    PiecesRead(ps, [quote] + w, [], line, 0);
    PiecesRead(ps, ['}'] + s, [], line, 0);
    Regroup([], [], WordsOf(ps));
    var line', start := line + Lines(Text(ps)), FirstLine(ps, line);
    GluedRead(w, quote, ch, s, WordsOf(ps), line', start);
    OpenQuoteRead(w, quote, WordsOf(ps), line', start);
    if WordsOf(ps) != [] {
      BraceInside(s, WordsOf(ps), line', start);
    }
  }

  lemma BraceInside(s: string, args: seq<string>, line: int, start: int)
    requires args != []
    ensures Lex(['}'] + s, args, "", Gap, line, start).code == Invalid
  {
    assert (['}'] + s)[0] == '}';
  }

  lemma {:induction false} InLastRemark(text: string, args: seq<string>, line: int, start: int)
    requires '\n' !in text
    ensures Lex(text, args, "", Comment, line, start).code == if args == [] then Eof else Invalid
    decreases |text|
  {
    if text == "" {
    } else {
      assert text[0] in text;
      InLastRemark(text[1..], args, line, start);
    }
  }

  /** A comment on a last line that is not ended. */
  lemma LastRemarkRead(ps: seq<Piece>, text: string, line: int)
    requires Complete(ps) && '\n' !in text && line > 0
    ensures Lex(Text(ps) + ("#" + text), [], "", Gap, line, 0).code == if WordsOf(ps) == [] then Eof else Invalid
  {
    var all := "#" + text;
    assert all[0] == '#' && all[1..] == text;
    InLastRemark(text, WordsOf(ps), line + Lines(Text(ps)), FirstLine(ps, line));
    assert Lex(all, WordsOf(ps), "", Gap, line + Lines(Text(ps)), FirstLine(ps, line)).code == if WordsOf(ps) == [] then Eof else Invalid;
    hide Lex, Lines, Text, FirstLine, WordsOf, Complete;
    PiecesRead(ps, all, [], line, 0);
    Regroup([], [], WordsOf(ps));
  }
}
