/** Whole configuration files, as they are laid out, are read as the trees that
    they show (srs_app_config.cpp). */
module ConfigSource {
  import opened ConfigTree
  import opened Sequences
  import opened ConfigText
  import opened ConfigLayout

  /** A directive as it stands in a file; `tail` is what stands before the brace
      that closes it. */
  datatype Source = Leaf(ps: seq<Piece>) | Block(ps: seq<Piece>, inner: seq<Source>, tail: seq<Piece>)

  function SourceText(x: Source): string
    decreases x, 0
  {
    match x
    case Leaf(ps) => Text(ps) + [';']
    case Block(ps, inner, tail) => Text(ps) + ['{'] + (SourcesText(inner) + (Text(tail) + ['}']))
  }

  function SourcesText(xs: seq<Source>): string
    decreases xs, 1
  {
    if xs == [] then "" else SourceText(xs[0]) + SourcesText(xs[1..])
  }

  predicate NoWords(ps: seq<Piece>) {
    Complete(ps) && forall i :: 0 <= i < |ps| ==> !IsWord(ps[i])
  }

  /** Every directive has a word. */
  predicate Sound(x: Source)
    decreases x, 0
  {
    Laid(x.ps) && WordsOf(x.ps) != [] && (x.Block? ==> SoundAll(x.inner) && NoWords(x.tail))
  }

  predicate SoundAll(xs: seq<Source>)
    decreases xs, 1
  {
    xs == [] || (Sound(xs[0]) && SoundAll(xs[1..]))
  }

  /** The tree that is shown, when the text starts on this line. */
  function TreeOf(x: Source, line: int): Directive
    requires Sound(x)
    decreases x, 0
  {
    var ws := WordsOf(x.ps);
    Directive(ws[0], ws[1..], if x.Block? then TreesOf(x.inner, line + Lines(Text(x.ps))) else [], FirstLine(x.ps, line))
  }

  function TreesOf(xs: seq<Source>, line: int): seq<Directive>
    requires SoundAll(xs)
    decreases xs, 1
  {
    if xs == [] then [] else [TreeOf(xs[0], line)] + TreesOf(xs[1..], line + Lines(SourceText(xs[0])))
  }

  function BeforeAll(ds: seq<Directive>, p: Parsed): Parsed {
    if p.Failed? then p else p.(subs := ds + p.subs)
  }

  // ------------------------------------------------------------- the ends

  lemma {:induction false} NoWordsMeans(ps: seq<Piece>, line: int)
    requires NoWords(ps)
    ensures WordsOf(ps) == [] && FirstLine(ps, line) == 0
    decreases |ps|
  {
    if ps == [] {
    } else {
      LaidTail(ps, 1);
      assert !IsWord(ps[0]);
      NoWordsMeans(ps[1..], match ps[0] case Space(ch) => line + Lines([ch]) case _ => line + 1);
    }
  }

  lemma NoWordsThen(ps: seq<Piece>, s: string, line: int)
    requires NoWords(ps) && line > 0
    ensures Lex(Text(ps) + s, [], "", Gap, line, 0) == Lex(s, [], "", Gap, line + Lines(Text(ps)), 0)
  {
    hide Lex, Lines, Text, FirstLine, WordsOf, NoWords;
    NoWordsMeans(ps, line);
    NoWordsComplete(ps);
    PiecesRead(ps, s, [], line, 0);
    assert [] + WordsOf(ps) == [];
  }

  lemma NoWordsComplete(ps: seq<Piece>)
    requires NoWords(ps)
    ensures Complete(ps)
  {
  }

  lemma OneChar(e: char, s: string, line: int)
    requires e == '}' || EndsHere(e)
    ensures Lex([e] + s, [], "", Gap, line, 0) == Token(if e == '}' then BlockEnd else Invalid, [], s, line, 0)
  {
    assert ([e] + s)[0] == e && ([e] + s)[1..] == s;
  }

  /** How the parser goes on after a token. */
  lemma ParseIs(s: string, line: int, block: bool)
    ensures var t := Lex(s, [], "", Gap, line, 0);
      && (t.code == BlockEnd ==> ParseConf(s, line, block) == if block then Parsed([], t.rest, t.line) else Failed(BlockEnd))
      && (t.code == Invalid ==> ParseConf(s, line, block) == Failed(Invalid))
      && (t.code == Eof ==> ParseConf(s, line, block) == if block then Failed(Eof) else Parsed([], "", t.line))
      && (t.code == Semicolon && t.args != [] ==>
            ParseConf(s, line, block) == Before(Directive(t.args[0], t.args[1..], [], t.start), ParseConf(t.rest, t.line, block)))
  {
  }

  lemma ParseBlockIs(s: string, line: int, block: bool)
    ensures var t := Lex(s, [], "", Gap, line, 0);
      t.code == BlockStart && t.args != [] ==>
        var inner := ParseConf(t.rest, t.line, true);
        var p := ParseConf(s, line, block);
        inner.Parsed? ==>
          p == Before(Directive(t.args[0], t.args[1..], inner.subs, t.start), ParseConf(inner.rest, inner.line, block))
  {
  }

  /** A closing brace ends a block, and is an error outside of one. */
  lemma BraceRead(tail: seq<Piece>, s: string, line: int, block: bool)
    requires NoWords(tail) && line > 0
    ensures ParseConf(Text(tail) + (['}'] + s), line, block) ==
      if block then Parsed([], s, line + Lines(Text(tail))) else Failed(BlockEnd)
  {
    hide Lex, ParseConf, Lines, NoWords;
    NoWordsThen(tail, ['}'] + s, line);
    OneChar('}', s, line + Lines(Text(tail)));
    ParseIs(Text(tail) + (['}'] + s), line, block);
  }

  /** The end of the file ends everything but a block. */
  lemma FileEndRead(tail: seq<Piece>, line: int, block: bool)
    requires NoWords(tail) && line > 0
    ensures ParseConf(Text(tail), line, block) == if block then Failed(Eof) else Parsed([], "", line + Lines(Text(tail)))
  {
    hide ParseConf, Lines, NoWords;
    NoWordsThen(tail, "", line);
    assert Text(tail) + "" == Text(tail);
    ParseIs(Text(tail), line, block);
  }

  /** A directive that the end of the file cuts off is an error. */
  lemma CutOffRead(ps: seq<Piece>, line: int, block: bool)
    requires Complete(ps) && WordsOf(ps) != [] && line > 0
    ensures ParseConf(Text(ps), line, block) == Failed(Invalid)
  {
    hide ParseConf, Lines, WordsOf, Complete;
    PiecesRead(ps, "", [], line, 0);
    assert Text(ps) + "" == Text(ps) && [] + WordsOf(ps) == WordsOf(ps);
    ParseIs(Text(ps), line, block);
  }

  /** So is the end of a directive without any word. */
  lemma EmptyRead(ps: seq<Piece>, e: char, s: string, line: int, block: bool)
    requires NoWords(ps) && EndsHere(e) && line > 0
    ensures ParseConf(Text(ps) + ([e] + s), line, block) == Failed(Invalid)
  {
    hide Lex, ParseConf, Lines, NoWords;
    NoWordsThen(ps, [e] + s, line);
    OneChar(e, s, line + Lines(Text(ps)));
    ParseIs(Text(ps) + ([e] + s), line, block);
  }

  // ------------------------------------------------------------ the directives

  /** x, with s after it, is read as its tree, and s as if it stood alone. */
  ghost predicate ReadsSource(x: Source, s: string, line: int, block: bool)
    requires Sound(x)
  {
    ParseConf(SourceText(x) + s, line, block) == Before(TreeOf(x, line), ParseConf(s, line + Lines(SourceText(x)), block))
  }

  ghost predicate ReadsSources(xs: seq<Source>, s: string, line: int, block: bool)
    requires SoundAll(xs)
  {
    ParseConf(SourcesText(xs) + s, line, block) ==
      BeforeAll(TreesOf(xs, line), ParseConf(s, line + Lines(SourcesText(xs)), block))
  }

  lemma LeafRead(x: Source, s: string, line: int, block: bool)
    requires Sound(x) && x.Leaf? && line > 0
    ensures ReadsSource(x, s, line, block)
  {
    hide Lex, ParseConf, Lines, Laid, WordsOf, FirstLine;
    DirectiveRead(x.ps, ';', s, line);
    LinesConcat(Text(x.ps), [';']);
    LinesOne(';');
    ParseIs(Text(x.ps) + [';'] + s, line, block);
  }

  /** The text of a block, with s after it. */
  function Behind(x: Source, s: string): string
    requires x.Block?
  {
    Text(x.tail) + (['}'] + s)
  }

  lemma SoundBlock(x: Source, line: int)
    requires Sound(x) && x.Block?
    ensures Laid(x.ps) && WordsOf(x.ps) != [] && SoundAll(x.inner) && NoWords(x.tail)
    ensures var ws, ds := WordsOf(x.ps), TreesOf(x.inner, line + Lines(Text(x.ps)));
      TreeOf(x, line) == Directive(ws[0], ws[1..], ds, FirstLine(x.ps, line)) && ds + [] == ds
  {
    hide Laid, WordsOf, NoWords, TreesOf, SoundAll, FirstLine, Lines, Text;
  }

  lemma BlockRead(x: Source, s: string, line: int, block: bool)
    requires Sound(x) && x.Block? && line > 0
    requires SoundAll(x.inner) && ReadsSources(x.inner, Behind(x, s), line + Lines(Text(x.ps)), true)
    ensures ReadsSource(x, s, line, block)
  {
    hide Lex, ParseConf, Lines, Laid, WordsOf, FirstLine, Sound, SourceText, SourcesText, Text, TreesOf, TreeOf, SoundAll, NoWords;
    SoundBlock(x, line);
    var line', inner, rest := line + Lines(Text(x.ps)), SourcesText(x.inner), Behind(x, s);
    BlockText(x, s);
    DirectiveRead(x.ps, '{', inner + rest, line);
    BraceRead(x.tail, s, line' + Lines(inner), true);
    ParseBlockIs(SourceText(x) + s, line, block);
  }

  lemma BlockText(x: Source, s: string)
    requires x.Block?
    ensures SourceText(x) + s == Text(x.ps) + ['{'] + (SourcesText(x.inner) + Behind(x, s))
    ensures Lines(SourceText(x)) == Lines(Text(x.ps)) + Lines(SourcesText(x.inner)) + Lines(Text(x.tail))
  {
    var a, b, c := Text(x.ps), SourcesText(x.inner), Text(x.tail);
    assert SourceText(x) == a + ['{'] + (b + (c + ['}']));
    hide Text, SourcesText, Lines, SourceText;
    FiveParts(a + ['{'], b, c, ['}'], s);
    LinesConcat(a + ['{'], b + (c + ['}']));
    LinesConcat(a, ['{']);
    LinesConcat(b, c + ['}']);
    LinesConcat(c, ['}']);
    LinesOne('{');
    LinesOne('}');
  }

  lemma FiveParts(a: string, b: string, c: string, d: string, e: string)
    ensures (a + (b + (c + d))) + e == a + (b + (c + (d + e)))
  {
  }

  lemma InnerSound(x: Source)
    requires Sound(x) && x.Block?
    ensures SoundAll(x.inner)
  {
  }

  lemma {:induction false} SourceRead(x: Source, s: string, line: int, block: bool)
    requires Sound(x) && line > 0
    ensures ReadsSource(x, s, line, block)
    decreases x, 0
  {
    hide ReadsSource, ReadsSources, Sound, Text, Behind;
    if x.Leaf? {
      LeafRead(x, s, line, block);
    } else {
      InnerSound(x);
      SourcesRead(x.inner, Behind(x, s), line + Lines(Text(x.ps)), true);
      BlockRead(x, s, line, block);
    }
  }

  /** Directives laid out in any sound way are read as the tree that they show,
      and what comes after them is read as if it stood alone. */
  lemma {:induction false} SourcesRead(xs: seq<Source>, s: string, line: int, block: bool)
    requires SoundAll(xs) && line > 0
    ensures ReadsSources(xs, s, line, block)
    decreases xs, 1
  {
    if xs == [] {
      NothingThere(s, line, block);
    } else {
      hide ReadsSource, ReadsSources, ParseConf, Lex, TreeOf, TreesOf, Lines, SourceText;
      SourceRead(xs[0], SourcesText(xs[1..]) + s, line, block);
      SourcesRead(xs[1..], s, line + Lines(SourceText(xs[0])), block);
      OneMore(xs, s, line, block);
    }
  }

  lemma NothingThere(s: string, line: int, block: bool)
    ensures ReadsSources([], s, line, block)
  {
    hide ParseConf;
    assert SourcesText([]) + s == s && Lines("") == 0;
    var p := ParseConf(s, line, block);
    assert p.Parsed? ==> [] + p.subs == p.subs;
  }

  lemma FirstSource(xs: seq<Source>, s: string, line: int)
    requires SoundAll(xs) && xs != []
    ensures Sound(xs[0]) && SoundAll(xs[1..])
    ensures SourcesText(xs) + s == SourceText(xs[0]) + (SourcesText(xs[1..]) + s)
    ensures TreesOf(xs, line) == [TreeOf(xs[0], line)] + TreesOf(xs[1..], line + Lines(SourceText(xs[0])))
    ensures Lines(SourcesText(xs)) == Lines(SourceText(xs[0])) + Lines(SourcesText(xs[1..]))
  {
    LinesConcat(SourceText(xs[0]), SourcesText(xs[1..]));
    Regroup(SourceText(xs[0]), SourcesText(xs[1..]), s);
  }

  lemma OneMore(xs: seq<Source>, s: string, line: int, block: bool)
    requires SoundAll(xs) && xs != [] && Sound(xs[0]) && SoundAll(xs[1..])
    requires ReadsSource(xs[0], SourcesText(xs[1..]) + s, line, block)
    requires ReadsSources(xs[1..], s, line + Lines(SourceText(xs[0])), block)
    ensures ReadsSources(xs, s, line, block)
  {
    hide ParseConf, Lines, TreesOf, TreeOf, SourcesText, SourceText, Sound, SoundAll;
    FirstSource(xs, s, line);
    var line' := line + Lines(SourceText(xs[0]));
    BeforeEach(TreeOf(xs[0], line), TreesOf(xs[1..], line'), ParseConf(s, line' + Lines(SourcesText(xs[1..])), block));
  }

  lemma BeforeEach(d: Directive, ds: seq<Directive>, p: Parsed)
    ensures Before(d, BeforeAll(ds, p)) == BeforeAll([d] + ds, p)
  {
    if p.Parsed? {
      Regroup([d], ds, p.subs);
    }
  }

  /** A file is read as its tree. */
  lemma FileRead(xs: seq<Source>, tail: seq<Piece>)
    requires SoundAll(xs) && NoWords(tail)
    ensures var text := SourcesText(xs) + Text(tail);
      ParseConf(text, 1, false) == Parsed(TreesOf(xs, 1), "", 1 + Lines(text))
  {
    hide ParseConf, Lines, Text, SourcesText, TreesOf, SoundAll, NoWords;
    SourcesRead(xs, Text(tail), 1, false);
    FileEndRead(tail, 1 + Lines(SourcesText(xs)), false);
    LinesConcat(SourcesText(xs), Text(tail));
    assert TreesOf(xs, 1) + [] == TreesOf(xs, 1);
  }

  /** A brace too many, a brace too few, a directive that is cut off, and an end
      without a directive are errors, wherever they stand. */
  lemma FileErrors(xs: seq<Source>, tail: seq<Piece>, ps: seq<Piece>, e: char, s: string)
    requires SoundAll(xs) && NoWords(tail) && Complete(ps) && WordsOf(ps) != [] && EndsHere(e)
    ensures ParseConf(SourcesText(xs) + (Text(tail) + (['}'] + s)), 1, false) == Failed(BlockEnd)
    ensures ParseConf(SourcesText(xs) + Text(tail), 1, true) == Failed(Eof)
    ensures ParseConf(SourcesText(xs) + Text(ps), 1, false) == Failed(Invalid)
    ensures ParseConf(SourcesText(xs) + (Text(tail) + ([e] + s)), 1, false) == Failed(Invalid)
  {
    hide ParseConf, Lines, Text, SourcesText, TreesOf, SoundAll, NoWords, Complete, WordsOf;
    var line := 1 + Lines(SourcesText(xs));
    SourcesRead(xs, Text(tail) + (['}'] + s), 1, false);
    SourcesRead(xs, Text(tail), 1, true);
    SourcesRead(xs, Text(ps), 1, false);
    SourcesRead(xs, Text(tail) + ([e] + s), 1, false);
    BraceRead(tail, s, line, false);
    FileEndRead(tail, line, true);
    CutOffRead(ps, line, false);
    EmptyRead(tail, e, s, line, false);
  }
}
