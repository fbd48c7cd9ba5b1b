/**
 * The serial console of the main loop: `readSerialCommands` frames the bytes
 * available on the serial port into lines, keeping an unfinished line in the
 * persistent buffer `g_input` between calls, and `handleCommand` splits each
 * line into a command word and its arguments and picks the handler. The Wi-Fi
 * handlers themselves are not part of this model; a dispatched line becomes
 * the `Command` value that names the handler and what it was given.
 */
module Console {
  import opened Text

  // ------------------------------------------------------------ handleCommand

  /** A line cut at its first space: the command word and the rest, both trimmed. */
  datatype Split = Split(cmd: string, args: string)

  /** The handler `handleCommand` runs for a line. */
  datatype Command =
    | WifiStatus
    | WifiSet(args: string)
    | WifiConnect
    | WifiClear
    | WifiAp
    | WifiScan
    | Unknown(cmd: string)   // answered with "unknown command"
    | Ignored                // an empty command word: nothing is printed

  /** The first space separates command and arguments; without one, the whole line is the command. */
  function SplitLine(line: string): Split
  {
    var sp := IndexOf(line, ' ');
    var cmd := if sp < 0 then line else line[..sp];
    var args := if sp < 0 then "" else line[sp + 1..];
    Split(Trim(cmd), Trim(args))
  }

  const StatusCmd: string := "wifi.status"
  const SetCmd: string := "wifi.set"
  const ConnectCmd: string := "wifi.connect"
  const ClearCmd: string := "wifi.clear"
  const ApCmd: string := "wifi.ap"
  const ScanCmd: string := "wifi.scan"

  /** The handler for a split line, chosen by its command word. */
  function Dispatch(s: Split): Command
  {
    if s.cmd == StatusCmd then WifiStatus
    else if s.cmd == SetCmd then WifiSet(s.args)
    else if s.cmd == ConnectCmd then WifiConnect
    else if s.cmd == ClearCmd then WifiClear
    else if s.cmd == ApCmd then WifiAp
    else if s.cmd == ScanCmd then WifiScan
    else if |s.cmd| > 0 then Unknown(s.cmd)
    else Ignored
  }

  /** `handleCommand(line)`: the handler chosen by the trimmed command word. */
  function HandleCommand(line: string): Command
  {
    Dispatch(SplitLine(line))
  }

  /** The command names `handleCommand` recognises. */
  predicate Known(cmd: string)
  {
    cmd in {StatusCmd, SetCmd, ConnectCmd, ClearCmd, ApCmd, ScanCmd}
  }

  /** A word and its arguments, joined by one space, split back into the word and the trimmed arguments. */
  lemma SplitJoined(cmd: string, args: string)
    requires cmd != [] && ' ' !in cmd && !IsSpace(cmd[0]) && !IsSpace(cmd[|cmd| - 1])
    ensures SplitLine(cmd + " " + args) == Split(cmd, Trim(args))
  {
    var line := cmd + " " + args;
    assert line[|cmd|] == ' ' && line[..|cmd|] == cmd && line[|cmd| + 1..] == args;
    assert IndexOf(line, ' ') == |cmd|;
    TrimUnchanged(cmd);
  }

  /** A line without a space is all command word: its arguments are empty. */
  lemma SplitNoSpace(line: string)
    requires ' ' !in line
    ensures SplitLine(line) == Split(Trim(line), "")
  {
  }

  /** An unrecognised non-empty word is answered "unknown command"; an empty word does nothing; arguments go only to `wifi.set`. */
  lemma DispatchCases(s: Split)
    ensures Dispatch(s) == Ignored <==> s.cmd == []
    ensures Dispatch(s).Unknown? <==> s.cmd != [] && !Known(s.cmd)
    ensures Dispatch(s).Unknown? ==> Dispatch(s).cmd == s.cmd
    ensures Dispatch(s).WifiSet? <==> s.cmd == SetCmd
    ensures Dispatch(s).WifiSet? ==> Dispatch(s).args == s.args
  {
  }

  /** `wifi.set` followed by anything hands the trimmed remainder to the `wifi.set` handler. */
  lemma SetReceivesArgs(args: string)
    ensures HandleCommand(SetCmd + " " + args) == WifiSet(Trim(args))
  {
    assert ' ' !in SetCmd;
    SplitJoined(SetCmd, args);
  }

  /** A line that starts with a non-space character always reaches a handler. */
  lemma NonBlankLineHandled(line: string)
    requires line != [] && !IsSpace(line[0])
    ensures HandleCommand(line) != Ignored
  {
    NonBlankLineHasCommand(line);
    DispatchCases(SplitLine(line));
  }

  /** The command word of a line that starts with a non-space character is not empty. */
  lemma NonBlankLineHasCommand(line: string)
    requires line != [] && !IsSpace(line[0])
    ensures SplitLine(line).cmd != []
  {
    var sp := IndexOf(line, ' ');
    var cmd := if sp < 0 then line else line[..sp];
    assert cmd != [] && cmd[0] == line[0];
    var i, j := TrimBounds(cmd);
    assert !IsSpace(cmd[0]);
    assert SplitLine(line).cmd == Trim(cmd) == cmd[i..j];
  }

  // ------------------------------------------------------- readSerialCommands

  /** The framer's state after some input: the buffered partial line and the lines dispatched, in order. */
  datatype Framed = Framed(pending: string, lines: seq<string>)

  /** One character read: `\r` is dropped, `\n` ends the line, anything else is buffered. */
  function FeedChar(f: Framed, c: char): Framed
  {
    if c == '\r' then f
    else if c == '\n' then
      var line := Trim(f.pending);
      Framed("", if |line| > 0 then f.lines + [line] else f.lines)
    else Framed(f.pending + [c], f.lines)
  }

  /** The framer state after reading `chars` with `pending` already buffered. */
  function Frame(pending: string, chars: string): Framed
    decreases |chars|
  {
    if chars == [] then Framed(pending, [])
    else FeedChar(Frame(pending, chars[..|chars| - 1]), chars[|chars| - 1])
  }

  /** The characters other than `\r`. */
  function DropCR(chars: string): (r: string)
    ensures '\r' !in r && |r| <= |chars|
    decreases |chars|
  {
    if chars == [] then []
    else DropCR(chars[..|chars| - 1]) + (if chars[|chars| - 1] == '\r' then [] else [chars[|chars| - 1]])
  }

  /** The handlers chosen for a series of lines. */
  function Commands(lines: seq<string>): (r: seq<Command>)
    ensures |r| == |lines|
  {
    if lines == [] then []
    else Commands(lines[..|lines| - 1]) + [HandleCommand(lines[|lines| - 1])]
  }

  /** Without a newline nothing is dispatched, and the partial line keeps growing. */
  lemma {:induction false} PartialLineSurvives(pending: string, chars: string)
    requires '\n' !in chars
    ensures Frame(pending, chars) == Framed(pending + DropCR(chars), [])
    decreases |chars|
  {
    if chars != [] {
      var init := chars[..|chars| - 1];
      assert forall c :: c in init ==> c in chars;
      PartialLineSurvives(pending, init);
    }
  }

  /** A line whose newline arrives: the trimmed text is dispatched if non-empty, and the buffer is emptied. */
  lemma LineCompleted(pending: string, text: string)
    requires '\n' !in text
    ensures Frame(pending, text + "\n") ==
      var line := Trim(pending + DropCR(text));
      Framed("", if |line| > 0 then [line] else [])
  {
    var chars := text + "\n";
    assert chars[..|chars| - 1] == text;
    PartialLineSurvives(pending, text);
  }

  /** Reading one more character is one more `FeedChar` step. */
  lemma FrameSnoc(pending: string, chars: string, c: char)
    ensures Frame(pending, chars + [c]) == FeedChar(Frame(pending, chars), c)
  {
    assert (chars + [c])[..|chars|] == chars;
  }

  /** Lines already dispatched play no part in the next step. */
  lemma FeedCharAfter(pending: string, earlier: seq<string>, later: seq<string>, c: char)
    ensures FeedChar(Framed(pending, earlier + later), c) ==
      var g := FeedChar(Framed(pending, later), c);
      Framed(g.pending, earlier + g.lines)
  {
    if c == '\n' {
      var line := Trim(pending);
      assert earlier + later + [line] == earlier + (later + [line]);
    }
  }

  /** Input split across calls frames exactly as if it had arrived at once. */
  lemma {:induction false} FrameChunks(pending: string, a: string, b: string)
    ensures Frame(pending, a + b) ==
      var first := Frame(pending, a);
      var second := Frame(first.pending, b);
      Framed(second.pending, first.lines + second.lines)
    decreases |b|
  {
    var first := Frame(pending, a);
    if b == [] {
      assert a + b == a;
      assert first.lines + [] == first.lines;
    } else {
      var init, c := b[..|b| - 1], b[|b| - 1];
      assert a + b == (a + init) + [c] && b == init + [c];
      FrameChunks(pending, a, init);
      var mid := Frame(first.pending, init);
      FrameSnoc(pending, a + init, c);
      FrameSnoc(first.pending, init, c);
      FeedCharAfter(mid.pending, first.lines, mid.lines, c);
    }
  }

  /** What is buffered or dispatched never holds a line break. */
  predicate NoBreaks(s: string)
  {
    '\n' !in s && '\r' !in s
  }

  /** A line as the framer dispatches it: non-empty, trimmed, without line breaks. */
  predicate CleanLine(line: string)
  {
    line != [] && !IsSpace(line[0]) && !IsSpace(line[|line| - 1]) && NoBreaks(line)
  }

  predicate Clean(f: Framed)
  {
    NoBreaks(f.pending) && forall k :: 0 <= k < |f.lines| ==> CleanLine(f.lines[k])
  }

  /** Trimming removes characters and adds none. */
  lemma TrimNoBreaks(s: string)
    requires NoBreaks(s)
    ensures NoBreaks(Trim(s))
  {
    var i, j := TrimBounds(s);
    assert forall k :: 0 <= k < j - i ==> Trim(s)[k] == s[i + k];
  }

  /** One step keeps the buffer free of line breaks and dispatches only clean lines. */
  lemma FeedCharClean(f: Framed, c: char)
    requires Clean(f)
    ensures Clean(FeedChar(f, c))
  {
    if c == '\n' {
      var line := Trim(f.pending);
      TrimNoBreaks(f.pending);
      if |line| > 0 {
        assert CleanLine(line);
        var lines := f.lines + [line];
        assert forall k :: 0 <= k < |lines| ==> CleanLine(lines[k]) by {
          forall k | 0 <= k < |lines|
            ensures CleanLine(lines[k])
          {
            if k < |f.lines| {
              assert lines[k] == f.lines[k];
            }
          }
        }
        assert FeedChar(f, c) == Framed("", lines);
      } else {
        assert FeedChar(f, c) == Framed("", f.lines);
      }
    } else if c != '\r' {
      assert FeedChar(f, c) == Framed(f.pending + [c], f.lines);
    }
  }

  /** Every dispatched line is non-empty, trimmed and free of line breaks, and the buffer stays free of them. */
  lemma {:induction false} FramedLinesClean(pending: string, chars: string)
    requires NoBreaks(pending)
    ensures Clean(Frame(pending, chars))
    decreases |chars|
  {
    if chars != [] {
      FramedLinesClean(pending, chars[..|chars| - 1]);
      FeedCharClean(Frame(pending, chars[..|chars| - 1]), chars[|chars| - 1]);
    }
  }

  /** Lines that come out of the framer always reach a handler: the `cmd.length()` guard never fails for them. */
  lemma FramedLinesHandled(pending: string, chars: string)
    requires NoBreaks(pending)
    ensures Ignored !in Commands(Frame(pending, chars).lines)
  {
    FramedLinesClean(pending, chars);
    CommandsNeverIgnored(Frame(pending, chars).lines);
  }

  /** Clean lines never meet an empty command word. */
  lemma {:induction false} CommandsNeverIgnored(lines: seq<string>)
    requires forall k :: 0 <= k < |lines| ==> CleanLine(lines[k])
    ensures Ignored !in Commands(lines)
  {
    if lines != [] {
      var init := lines[..|lines| - 1];
      assert forall k :: 0 <= k < |init| ==> init[k] == lines[k];
      CommandsNeverIgnored(init);
      NonBlankLineHandled(lines[|lines| - 1]);
    }
  }

  lemma CommandsSnoc(lines: seq<string>, line: string)
    ensures Commands(lines + [line]) == Commands(lines) + [HandleCommand(line)]
  {
    assert (lines + [line])[..|lines|] == lines;
  }

  /** The console: its only state is the partial-line buffer `g_input`. */
  class SerialConsole {
    var input: string

    /** `String g_input;` starts empty. */
    constructor ()
      ensures input == ""
    {
      input := "";
    }

    /**
     * `readSerialCommands()` reading the characters `avail` that the port
     * has ready: returns the handlers run, in order, and keeps the partial
     * line in the buffer.
     */
    method ReadSerialCommands(avail: string) returns (commands: seq<Command>)
      modifies this
      ensures input == Frame(old(input), avail).pending
      ensures commands == Commands(Frame(old(input), avail).lines)
    {
      ghost var start := input;
      ghost var lines: seq<string> := [];
      commands := [];
      var i := 0;
      assert avail[..0] == [];
      while i < |avail|
        invariant 0 <= i <= |avail|
        invariant Frame(start, avail[..i]) == Framed(input, lines)
        invariant commands == Commands(lines)
      {
        var c := avail[i];
        assert avail[..i + 1] == avail[..i] + [c];
        FrameSnoc(start, avail[..i], c);
        ghost var next := FeedChar(Framed(input, lines), c);
        i := i + 1;
        if c == '\r' {
          continue;
        }
        if c == '\n' {
          var line := input;
          input := "";
          line := Trim(line);
          if |line| > 0 {
            CommandsSnoc(lines, line);
            commands := commands + [HandleCommand(line)];
            lines := lines + [line];
          }
          assert next == Framed(input, lines);
          continue;
        }
        input := input + [c];
        assert next == Framed(input, lines);
      }
      assert avail[..i] == avail;
    }
  }
}
