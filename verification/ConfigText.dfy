/** The language of configuration files: what its tokens are, how a text is read,
    and how a tree is written (srs_app_config.cpp). */
module ConfigText {
  import opened ConfigTree

  predicate IsSpace(ch: char) {
    ch == ' ' || ch == '\t' || ch == '\r' || ch == '\n'
  }

  /** How a token ends. */
  datatype Code = Invalid | Semicolon | BlockStart | BlockEnd | Eof

  /** Between words, in a comment, in a word, in either kind of quotes, and
      right after quotes. */
  datatype Mode = Gap | Comment | Bare | Double | Single | Closed

  datatype Token = Token(code: Code, args: seq<string>, rest: string, line: int, start: int)

  /** What a C string makes of a word: the part before the first NUL. */
  function CString(word: string): string {
    if word == "" || word[0] == '\0' then "" else [word[0]] + CString(word[1..])
  }

  /** The words so far, with one more unless it is empty. */
  function Push(args: seq<string>, word: string): seq<string> {
    if CString(word) == "" then args else args + [CString(word)]
  }

  /** What one character does: the directive is done, or reading goes on. */
  datatype Stepped =
    | Done(code: Code, args: seq<string>, line: int, start: int)
    | Go(args: seq<string>, word: string, mode: Mode, line: int, start: int)

  /** `word` is the word being read, and `start` the line it started on, or 0. */
  function Step(ch: char, args: seq<string>, word: string, mode: Mode, line: int, start: int): Stepped {
    var line' := if ch == '\n' then line + 1 else line;
    var start' := if start == 0 then line' else start;
    match mode
    case Comment => Go(args, "", if ch == '\n' then Gap else Comment, line', start)
    case Closed =>
      if IsSpace(ch) then Go(args, "", Gap, line', start)
      else Done(if ch == ';' then Semicolon else if ch == '{' then BlockStart else Invalid, args, line', start)
    case Gap =>
      if IsSpace(ch) then Go(args, "", Gap, line', start)
      else if ch == ';' then Done(if args == [] then Invalid else Semicolon, args, line', start)
      else if ch == '{' then Done(if args == [] then Invalid else BlockStart, args, line', start)
      else if ch == '}' then Done(if args == [] then BlockEnd else Invalid, args, line', start)
      else if ch == '#' then Go(args, "", Comment, line', start)
      else if ch == '"' then Go(args, "", Double, line', start)
      else if ch == '\'' then Go(args, "", Single, line', start)
      else Go(args, [ch], Bare, line', start)
    case Double =>
      if ch == '"' then Go(Push(args, word), "", Closed, line', start') else Go(args, word + [ch], Double, line', start')
    case Single =>
      if ch == '\'' then Go(Push(args, word), "", Closed, line', start') else Go(args, word + [ch], Single, line', start')
    case Bare =>
      if IsSpace(ch) then Go(Push(args, word), "", Gap, line', start')
      else if ch == ';' then Done(Semicolon, Push(args, word), line', start')
      else if ch == '{' then Done(BlockStart, Push(args, word), line', start')
      else Go(args, word + [ch], Bare, line', start')
  }

  /** Reads a directive up to its end. */
  function Lex(s: string, args: seq<string>, word: string, mode: Mode, line: int, start: int): (t: Token)
    ensures |t.rest| <= |s| && (s != "" ==> |t.rest| < |s|)
    ensures s == "" ==> t.code == Eof || t.code == Invalid
    ensures t.code == Eof ==> t.rest == ""
    ensures s == "" && args == [] && mode == Gap ==> t.code == Eof
    decreases |s|
  {
    if s == "" then
      Token(if args != [] || (mode != Gap && mode != Comment) then Invalid else Eof, args, s, line, start)
    else
      match Step(s[0], args, word, mode, line, start)
      case Done(code, args', line', start') => Token(code, args', s[1..], line', start')
      case Go(args', word', mode', line', start') => Lex(s[1..], args', word', mode', line', start')
  }

  /** What is read after one character. */
  function Following(next: Stepped, rest: string): Token {
    match next
    case Done(code, args, line, start) => Token(code, args, rest, line, start)
    case Go(args, word, mode, line, start) => Lex(rest, args, word, mode, line, start)
  }

  /** The outcome of reading the directives of a file or of a block. */
  datatype Parsed = Parsed(subs: seq<Directive>, rest: string, line: int) | Failed(code: Code)

  function ParseConf(s: string, line: int, block: bool): (p: Parsed)
    ensures p.Parsed? ==> |p.rest| <= |s| && (block ==> |p.rest| < |s|) && (!block ==> p.rest == "")
    decreases |s|
  {
    var t := Lex(s, [], "", Gap, line, 0);
    if t.code == Invalid then Failed(Invalid)
    else if t.code == BlockEnd then
      if block then Parsed([], t.rest, t.line) else Failed(BlockEnd)
    else if t.code == Eof then
      if block then Failed(Eof) else Parsed([], "", t.line)
    else if t.args == [] then Failed(Invalid)
    else if t.code == Semicolon then
      Before(Directive(t.args[0], t.args[1..], [], t.start), ParseConf(t.rest, t.line, block))
    else
      var inner := ParseConf(t.rest, t.line, true);
      if inner.Failed? then inner
      else Before(Directive(t.args[0], t.args[1..], inner.subs, t.start), ParseConf(inner.rest, inner.line, block))
  }

  function Before(d: Directive, p: Parsed): Parsed {
    if p.Failed? then p else p.(subs := [d] + p.subs)
  }

  // -------------------------------------------------------------- writing

  function Indent(n: nat): string {
    if n == 0 then "" else "    " + Indent(n - 1)
  }

  function Join(args: seq<string>): string {
    if args == [] then "" else if |args| == 1 then args[0] else args[0] + " " + Join(args[1..])
  }

  /** A directive and everything below it. */
  function Print(d: Directive, level: nat): string
    requires level > 0
    decreases d, 0
  {
    Indent(level - 1) + Head(d) + "\n" +
    PrintAll(d.subs, level + 1) +
    if d.subs == [] then "" else Indent(level - 1) + "}" + "\n"
  }

  function Head(d: Directive): string {
    d.name + (if d.args == [] then "" else " " + Join(d.args)) + if d.subs == [] then ";" else " {"
  }

  function PrintAll(ds: seq<Directive>, level: nat): string
    requires level > 0
    decreases ds, 1
  {
    if ds == [] then "" else Print(ds[0], level) + PrintAll(ds[1..], level)
  }

  // --------------------------------------------------------- plain trees

  /** Characters that may stand in a word without quotes. */
  predicate WordChar(ch: char) {
    !IsSpace(ch) && ch != ';' && ch != '{' && ch != '\0'
  }

  predicate AllWordChars(w: string) {
    forall i :: 0 <= i < |w| ==> WordChar(w[i])
  }

  predicate PlainWord(w: string) {
    w != "" && AllWordChars(w) && w[0] != '}' && w[0] != '#' && w[0] != '"' && w[0] != '\''
  }

  predicate PlainWords(ws: seq<string>) {
    forall i :: 0 <= i < |ws| ==> PlainWord(ws[i])
  }

  predicate Plain(d: Directive)
    decreases d, 0
  {
    PlainWord(d.name) && PlainWords(d.args) && PlainAll(d.subs)
  }

  predicate PlainAll(ds: seq<Directive>)
    decreases ds, 1
  {
    ds == [] || (Plain(ds[0]) && PlainAll(ds[1..]))
  }
}
