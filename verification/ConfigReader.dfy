/** The reader and the writer of configuration files as they run: a buffer with
    a position that moves, five flags, and an output that grows
    (srs_app_config.cpp).  They do what module ConfigText says. */
module ConfigReader {
  import opened Sequences
  import opened ConfigTree
  import opened ConfigText

  class Buffer {
    const text: string
    var pos: nat
    var line: int

    constructor (content: string)
      ensures text == content && pos == 0 && line == 1
    {
      text, pos, line := content, 0, 1;
    }

    function Rest(): string
      requires pos <= |text|
      reads this
    {
      text[pos..]
    }
  }

  datatype Flags = Flags(sharp: bool, dQuoted: bool, sQuoted: bool, needSpace: bool, lastSpace: bool)
  {
    /** The mode that the flags of the reader stand for. */
    function Mode(): Mode {
      if sharp then Comment
      else if needSpace then Closed
      else if lastSpace then Gap
      else if dQuoted then Double
      else if sQuoted then Single
      else Bare
    }

    /** The combinations of flags that occur. */
    predicate Fit() {
      && (sharp ==> lastSpace && !needSpace)
      && (needSpace ==> !lastSpace)
      && (needSpace || lastSpace ==> !dQuoted && !sQuoted)
      && !(dQuoted && sQuoted)
    }

    /** The part of the text that is the word being read. */
    function WordIn(text: string, pstart: nat, pos: nat): string
      requires pstart <= pos <= |text|
    {
      if lastSpace || needSpace then "" else text[pstart..pos]
    }
  }

  /** The C string in the buffer from `from` up to `to`. */
  method Word(text: string, from: nat, to: nat) returns (w: string)
    requires from <= to <= |text|
    ensures w == CString(text[from..to])
  {
    var i := from;
    while i < to && text[i] != '\0'
      invariant from <= i <= to
      invariant CString(text[from..to]) == text[from..i] + CString(text[i..to])
    {
      WordGoesOn(text, from, i, to);
      i := i + 1;
    }
    w := text[from..i];
    assert i < to ==> text[i..to][0] == '\0';
  }

  lemma WordGoesOn(text: string, from: nat, i: nat, to: nat)
    requires from <= i < to <= |text| && text[i] != '\0'
    ensures text[from..i] + CString(text[i..to]) == text[from..i + 1] + CString(text[i + 1..to])
  {
    var tail := text[i..to];
    assert tail[0] == text[i] && tail[1..] == text[i + 1..to];
    assert text[from..i + 1] == text[from..i] + [text[i]];
    Regroup(text[from..i], [text[i]], CString(tail[1..]));
  }

  lemma Longer(text: string, from: nat, to: nat)
    requires from <= to < |text|
    ensures text[from..to + 1] == text[from..to] + [text[to]]
    ensures text[to..] == [text[to]] + text[to + 1..]
  {
  }

  lemma LexStep(text: string, pos: nat, args: seq<string>, word: string, mode: Mode, line: int, start: int)
    requires pos < |text|
    ensures Lex(text[pos..], args, word, mode, line, start) == Following(Step(text[pos], args, word, mode, line, start), text[pos + 1..])
  {
    Longer(text, pos, pos);
  }

  /** `read_token`: it reads on from the position and, unless it is at the end
      of the file, moves it. */
  method ReadToken(buffer: Buffer) returns (code: Code, args: seq<string>, lineStart: int)
    requires buffer.pos <= |buffer.text|
    modifies buffer
    ensures buffer.pos <= |buffer.text|
    ensures Lex(old(buffer.Rest()), [], "", Gap, old(buffer.line), 0) == Token(code, args, buffer.Rest(), buffer.line, lineStart)
    ensures old(buffer.pos) < |buffer.text| ==> buffer.pos > old(buffer.pos)
    ensures old(buffer.pos) == |buffer.text| ==> code == Eof
  {
    ghost var t := Lex(buffer.Rest(), [], "", Gap, buffer.line, 0);
    var pstart: nat := buffer.pos;
    var f := Flags(false, false, false, false, true);
    args, lineStart := [], 0;
    while true
      invariant old(buffer.pos) <= buffer.pos <= |buffer.text| && pstart <= buffer.pos && f.Fit()
      invariant Lex(buffer.Rest(), args, f.WordIn(buffer.text, pstart, buffer.pos), f.Mode(), buffer.line, lineStart) == t
      decreases |buffer.text| - buffer.pos
    {
      if buffer.pos >= |buffer.text| {
        if args != [] || !f.lastSpace {
          return Invalid, args, lineStart;
        }
        return Eof, args, lineStart;
      }
      var done;
      done, code, args, lineStart, pstart, f := ReadOn(buffer, args, lineStart, pstart, f);
      if done {
        return;
      }
    }
  }

  /** One round of the loop of `read_token`: either the token is complete, or
      what is still ahead does not change. */
  method ReadOn(buffer: Buffer, args0: seq<string>, lineStart0: int, pstart0: nat, f0: Flags)
    returns (done: bool, code: Code, args: seq<string>, lineStart: int, pstart: nat, f: Flags)
    requires pstart0 <= buffer.pos < |buffer.text| && f0.Fit()
    modifies buffer
    ensures buffer.pos == old(buffer.pos) + 1 && pstart <= buffer.pos && f.Fit()
    ensures old(Lex(buffer.Rest(), args0, f0.WordIn(buffer.text, pstart0, buffer.pos), f0.Mode(), buffer.line, lineStart0))
      == if done then Token(code, args, buffer.Rest(), buffer.line, lineStart)
         else Lex(buffer.Rest(), args, f.WordIn(buffer.text, pstart, buffer.pos), f.Mode(), buffer.line, lineStart)
  {
    LexStep(buffer.text, buffer.pos, args0, f0.WordIn(buffer.text, pstart0, buffer.pos), f0.Mode(), buffer.line, lineStart0);
    done, code, args, lineStart, pstart, f := ReadChar(buffer, args0, lineStart0, pstart0, f0);
  }

  /** What one character does to the flags and to the word pointer. */
  method ReadChar(buffer: Buffer, args0: seq<string>, lineStart0: int, pstart0: nat, f0: Flags)
    returns (done: bool, code: Code, args: seq<string>, lineStart: int, pstart: nat, f: Flags)
    requires pstart0 <= buffer.pos < |buffer.text| && f0.Fit()
    modifies buffer
    ensures buffer.pos == old(buffer.pos) + 1 && pstart <= buffer.pos && f.Fit()
    ensures Step(buffer.text[old(buffer.pos)], args0, f0.WordIn(buffer.text, pstart0, old(buffer.pos)), f0.Mode(), old(buffer.line), lineStart0)
      == if done then Done(code, args, buffer.line, lineStart)
         else Go(args, f.WordIn(buffer.text, pstart, buffer.pos), f.Mode(), buffer.line, lineStart)
  {
    done, code, args, lineStart, pstart, f := false, Invalid, args0, lineStart0, pstart0, f0;
    var ch := buffer.text[buffer.pos];
    buffer.pos := buffer.pos + 1;
    if ch == '\n' {
      buffer.line := buffer.line + 1;
      f := f.(sharp := false);
    }
    if f.sharp {
      return;
    }
    if f.needSpace {
      if IsSpace(ch) {
        f := f.(lastSpace := true, needSpace := false);
        return;
      }
      code := if ch == ';' then Semicolon else if ch == '{' then BlockStart else Invalid;
      done := true;
      return;
    }
    if f.lastSpace {
      if !IsSpace(ch) {
        done, code, pstart, f := StartOfWord(buffer, args, lineStart);
      }
    } else {
      var found;
      args, lineStart, f, found := InsideWord(buffer, pstart, args, lineStart, f);
      if found && ch == ';' {
        done, code := true, Semicolon;
      } else if found && ch == '{' {
        done, code := true, BlockStart;
      }
    }
  }

  /** The part of `read_token` for a character, just passed, that is no space
      and follows one: the directive is done, or a word or a comment starts. */
  method StartOfWord(buffer: Buffer, args: seq<string>, lineStart: int)
    returns (done: bool, code: Code, pstart: nat, f: Flags)
    requires 0 < buffer.pos <= |buffer.text| && !IsSpace(buffer.text[buffer.pos - 1])
    ensures f.Fit() && pstart <= buffer.pos
    ensures Step(buffer.text[buffer.pos - 1], args, "", Gap, buffer.line, lineStart) ==
      if done then Done(code, args, buffer.line, lineStart)
      else Go(args, f.WordIn(buffer.text, pstart, buffer.pos), f.Mode(), buffer.line, lineStart)
  {
    var ch := buffer.text[buffer.pos - 1];
    Longer(buffer.text, buffer.pos - 1, buffer.pos - 1);
    done, code, pstart, f := false, Invalid, buffer.pos - 1, Flags(false, false, false, false, true);
    match ch
    case ';' =>
      done, code := true, if args == [] then Invalid else Semicolon;
    case '{' =>
      done, code := true, if args == [] then Invalid else BlockStart;
    case '}' =>
      done, code := true, if args == [] then BlockEnd else Invalid;
    case '#' =>
      f := f.(sharp := true);
    case '"' =>
      pstart, f := pstart + 1, f.(dQuoted := true, lastSpace := false);
    case '\'' =>
      pstart, f := pstart + 1, f.(sQuoted := true, lastSpace := false);
    case _ =>
      f := f.(lastSpace := false);
  }

  /** The part of `read_token` for a character, just passed, that follows
      another character of the same word: it may end the word. */
  method InsideWord(buffer: Buffer, pstart: nat, args0: seq<string>, lineStart0: int, f0: Flags)
    returns (args: seq<string>, lineStart: int, f: Flags, found: bool)
    requires pstart < buffer.pos <= |buffer.text| && f0.Fit() && !f0.needSpace && !f0.lastSpace
    ensures f.Fit() && !f.sharp && (found <==> f.needSpace || f.lastSpace)
    ensures var ch := buffer.text[buffer.pos - 1];
      Step(ch, args0, buffer.text[pstart..buffer.pos - 1], f0.Mode(), if ch == '\n' then buffer.line - 1 else buffer.line, lineStart0) ==
        if found && ch == ';' then Done(Semicolon, args, buffer.line, lineStart)
        else if found && ch == '{' then Done(BlockStart, args, buffer.line, lineStart)
        else Go(args, f.WordIn(buffer.text, pstart, buffer.pos), f.Mode(), buffer.line, lineStart)
  {
    var ch := buffer.text[buffer.pos - 1];
    Longer(buffer.text, pstart, buffer.pos - 1);
    args, lineStart, f, found := args0, lineStart0, f0, false;
    if lineStart == 0 {
      lineStart := buffer.line;
    }
    if f.dQuoted {
      if ch == '"' {
        f, found := f.(dQuoted := false, needSpace := true), true;
      }
    } else if f.sQuoted {
      if ch == '\'' {
        f, found := f.(sQuoted := false, needSpace := true), true;
      }
    } else if IsSpace(ch) || ch == ';' || ch == '{' {
      f, found := f.(lastSpace := true), true;
    }
    if found {
      var aword := Word(buffer.text, pstart, buffer.pos - 1);
      if aword != "" {
        args := args + [aword];
      }
    }
  }

  /** `parse_conf`: reads the directives of a file, or of a block up to its
      closing brace. */
  method Parse(buffer: Buffer, block: bool) returns (subs: seq<Directive>, failed: bool, code: Code)
    requires buffer.pos <= |buffer.text|
    modifies buffer
    ensures old(buffer.pos) <= buffer.pos <= |buffer.text|
    ensures ParseConf(old(buffer.Rest()), old(buffer.line), block) == if failed then Failed(code) else Parsed(subs, buffer.Rest(), buffer.line)
    decreases |buffer.text| - buffer.pos, 0
  {
    ghost var p := ParseConf(buffer.Rest(), buffer.line, block);
    subs := [];
    while true
      invariant old(buffer.pos) <= buffer.pos <= |buffer.text|
      invariant After(subs, ParseConf(buffer.Rest(), buffer.line, block)) == p
      decreases |buffer.text| - buffer.pos
    {
      ghost var here := ParseConf(buffer.Rest(), buffer.line, block);
      var args, lineStart;
      code, args, lineStart := ReadToken(buffer);
      if code == Invalid {
        return subs, true, Invalid;
      }
      if code == BlockEnd {
        AfterNone(subs);
        return subs, !block, BlockEnd;
      }
      if code == Eof {
        AfterNone(subs);
        return subs, block, Eof;
      }
      if args == [] {
        return subs, true, Invalid;
      }
      var inner := [];
      if code == BlockStart {
        inner, failed, code := Parse(buffer, true);
        if failed {
          return;
        }
      }
      var directive := Directive(args[0], args[1..], inner, lineStart);
      AfterOne(subs, directive, ParseConf(buffer.Rest(), buffer.line, block));
      subs := subs + [directive];
    }
  }

  /** The directives that have been read, in front of those still to come. */
  function After(subs: seq<Directive>, p: Parsed): Parsed {
    if p.Failed? then p else p.(subs := subs + p.subs)
  }

  lemma AfterOne(subs: seq<Directive>, d: Directive, p: Parsed)
    ensures After(subs, Before(d, p)) == After(subs + [d], p)
  {
    if p.Parsed? {
      assert subs + ([d] + p.subs) == subs + [d] + p.subs;
    }
  }

  lemma AfterNone(subs: seq<Directive>)
    ensures subs + [] == subs
  {
  }

  // -------------------------------------------------------------- writing

  class Writer {
    var out: string

    constructor ()
      ensures out == ""
    {
      out := "";
    }

    method Write(s: string)
      modifies this
      ensures out == old(out) + s
    {
      out := out + s;
    }
  }

  method WriteIndent(writer: Writer, n: nat)
    modifies writer
    ensures writer.out == old(writer.out) + Indent(n)
  {
    var i := 0;
    while i < n
      invariant i <= n && writer.out + Indent(n - i) == old(writer.out) + Indent(n)
    {
      ghost var before := writer.out;
      assert Indent(n - i) == "    " + Indent(n - i - 1);
      writer.Write("    ");
      assert before + Indent(n - i) == writer.out + Indent(n - i - 1);
      i := i + 1;
    }
  }

  method WriteArgs(writer: Writer, args: seq<string>)
    modifies writer
    ensures writer.out == old(writer.out) + Join(args)
  {
    var i := 0;
    while i < |args|
      invariant i <= |args| && writer.out + Join(args[i..]) == old(writer.out) + Join(args)
    {
      ghost var before := writer.out;
      HeadTail(args, i);
      writer.Write(args[i]);
      if i < |args| - 1 {
        writer.Write(" ");
      }
      assert before + Join(args[i..]) == writer.out + Join(args[i + 1..]);
      i := i + 1;
    }
  }

  /** Name, arguments, and a semicolon or an opening brace. */
  method WriteHead(d: Directive, writer: Writer)
    modifies writer
    ensures writer.out == old(writer.out) + Head(d)
  {
    writer.Write(d.name);
    if d.args != [] {
      writer.Write(" ");
    }
    WriteArgs(writer, d.args);
    if d.subs == [] {
      writer.Write(";");
    }
    if d.subs != [] {
      writer.Write(" ");
      writer.Write("{");
    }
  }

  method WriteClosing(writer: Writer, level: nat)
    requires level > 0
    modifies writer
    ensures writer.out == old(writer.out) + (Indent(level - 1) + "}" + "\n")
  {
    WriteIndent(writer, level - 1);
    writer.Write("}");
    writer.Write("\n");
  }

  /** `persistence`: writes a directive with all below it; of the root, which is
      at level 0, only what is below it. */
  method Persistence(d: Directive, writer: Writer, level: nat)
    modifies writer
    ensures writer.out == old(writer.out) + if level == 0 then PrintAll(d.subs, 1) else Print(d, level)
    decreases d
  {
    ghost var start := writer.out;
    if level > 0 {
      WriteIndent(writer, level - 1);
      WriteHead(d, writer);
      writer.Write("\n");
    }
    ghost var head := if level == 0 then "" else Indent(level - 1) + Head(d) + "\n";
    assert writer.out == start + head;
    var i := 0;
    while i < |d.subs|
      invariant i <= |d.subs|
      invariant writer.out + PrintAll(d.subs[i..], level + 1) == start + head + PrintAll(d.subs, level + 1)
    {
      ghost var before := writer.out;
      PrintNext(d.subs, i, level + 1, before);
      Persistence(d.subs[i], writer, level + 1);
      i := i + 1;
    }
    assert d.subs[i..] == [];
    assert writer.out == start + head + PrintAll(d.subs, level + 1);
    if level > 0 && d.subs != [] {
      WriteClosing(writer, level);
    }
    PrintIs(d, level, start, head);
  }

  lemma PrintNext(ds: seq<Directive>, i: nat, level: nat, before: string)
    requires i < |ds| && level > 0
    ensures before + PrintAll(ds[i..], level) == (before + Print(ds[i], level)) + PrintAll(ds[i + 1..], level)
  {
    HeadTail(ds, i);
  }

  lemma PrintIs(d: Directive, level: nat, start: string, head: string)
    requires head == if level == 0 then "" else Indent(level - 1) + Head(d) + "\n"
    ensures start + (if level == 0 then PrintAll(d.subs, 1) else Print(d, level)) ==
      start + head + PrintAll(d.subs, level + 1) +
        (if level > 0 && d.subs != [] then Indent(level - 1) + "}" + "\n" else "")
  {
    if level > 0 {
      Reassociate(start, head, PrintAll(d.subs, level + 1), if d.subs == [] then "" else Indent(level - 1) + "}" + "\n");
    }
  }

  lemma Reassociate(a: string, b: string, c: string, z: string)
    ensures a + (b + c + z) == a + b + c + z
  {
  }
}
