/**
 * How `/bin/sh` splits the command line that `process_message` hands to
 * `os.system`, for the part of the shell grammar such a line needs:
 * blanks separate words, single quotes make everything up to the next
 * single quote literal, and a backslash outside quotes makes the next
 * character literal. Any other character that sh treats specially outside
 * quotes (operators, expansions, globbing, comments, newlines) makes the
 * split undetermined (None), as does an unterminated quote; so whenever
 * `Split` gives words, they are the words sh passes to the command.
 */
module Shell {
  import opened Wrappers
  import opened Dispatch

  predicate IsBlank(c: char)
  {
    c == ' ' || c == '\t'
  }

  /** Characters whose unquoted meaning this model does not cover. */
  predicate IsUnmodelled(c: char)
  {
    c in {'|', '&', ';', '<', '>', '(', ')', '$', '`', '"', '\n', '*', '?', '[', '#', '~', '{', '}', '!', '='}
  }

  /** Characters that stand for themselves outside quotes. */
  predicate IsPlain(c: char)
  {
    !IsBlank(c) && c != '\'' && c != '\\' && !IsUnmodelled(c)
  }

  function Flush(done: seq<string>, cur: Option<string>): seq<string>
  {
    match cur
    case None => done
    case Some(w) => done + [w]
  }

  function Extend(cur: Option<string>, s: string): string
  {
    match cur
    case None => s
    case Some(w) => w + s
  }

  /** Scan the rest `s` of a line: `done` holds the finished words, `cur`
      the word being built (None between words) and `quoted` whether a
      single-quoted run is open. */
  function Scan(s: string, done: seq<string>, cur: Option<string>, quoted: bool): Option<seq<string>>
    decreases |s|
  {
    if s == [] then
      if quoted then None else Some(Flush(done, cur))
    else if quoted then
      if s[0] == '\'' then Scan(s[1..], done, cur, false)
      else Scan(s[1..], done, Some(Extend(cur, [s[0]])), true)
    else if IsBlank(s[0]) then Scan(s[1..], Flush(done, cur), None, false)
    else if s[0] == '\'' then Scan(s[1..], done, Some(Extend(cur, "")), true)
    else if s[0] == '\\' then
      if |s| >= 2 && s[1] != '\n' then Scan(s[2..], done, Some(Extend(cur, [s[1]])), false)
      else None
    else if IsUnmodelled(s[0]) then None
    else Scan(s[1..], done, Some(Extend(cur, [s[0]])), false)
  }

  /** The words of a command line. */
  function Split(line: string): Option<seq<string>>
  {
    Scan(line, [], None, false)
  }

  predicate NoQuote(s: string)
  {
    forall i :: 0 <= i < |s| ==> s[i] != '\''
  }

  /** The body of a single-quoted word that stands for `a`: each quote
      closes the run, is given as `\'`, and a new run opens. */
  function Escape(a: string): string
  {
    if a == [] then ""
    else (if a[0] == '\'' then "'\\''" else [a[0]]) + Escape(a[1..])
  }

  function Quote(a: string): string
  {
    "'" + Escape(a) + "'"
  }

  /** Each argument as a blank and its quoted form. */
  function Quoted(args: seq<string>): string
  {
    if args == [] then "" else " " + Quote(args[0]) + Quoted(args[1..])
  }

  /** Each argument pasted between single quotes after a blank, with
      nothing escaped: the `' '{..}'` pieces of the f-string. */
  function Pasted(args: seq<string>): string
  {
    if args == [] then "" else " '" + args[0] + "'" + Pasted(args[1..])
  }

  /** The line `process_message` builds, as written:
      `python3 command.py '{name}' '{content}' '{channel}' '{msg_type}'`. */
  function CommandAsWritten(job: DispatchJob): (line: string)
    ensures line == "python3 command.py '" + job.sender + "' '" + job.content + "' '"
                    + IntToString(job.channel) + "' '" + IntToString(job.msgType) + "'"
  {
    var a := job.Argv();
    assert Pasted(a[1..][1..][1..]) == " '" + a[3] + "'" + Pasted(a[1..][1..][1..][1..]);
    assert Pasted(a[1..][1..]) == " '" + a[2] + "'" + Pasted(a[1..][1..][1..]);
    assert Pasted(a[1..]) == " '" + a[1] + "'" + Pasted(a[1..][1..]);
    assert Pasted(a) == " '" + a[0] + "'" + Pasted(a[1..]);
    "python3" + " " + "command.py" + Pasted(a)
  }

  /** The line with each argument quoted so that sh hands it over intact:
      the f-string with every `'{..}'` replaced by the argument's Quote. */
  function Command(job: DispatchJob): (line: string)
    ensures line == "python3 command.py " + Quote(job.sender) + " " + Quote(job.content) + " "
                    + Quote(IntToString(job.channel)) + " " + Quote(IntToString(job.msgType))
  {
    var a := job.Argv();
    assert Quoted(a[1..][1..][1..]) == " " + Quote(a[3]) + Quoted(a[1..][1..][1..][1..]);
    assert Quoted(a[1..][1..]) == " " + Quote(a[2]) + Quoted(a[1..][1..][1..]);
    assert Quoted(a[1..]) == " " + Quote(a[1]) + Quoted(a[1..][1..]);
    assert Quoted(a) == " " + Quote(a[0]) + Quoted(a[1..]);
    "python3" + " " + "command.py" + Quoted(a)
  }

  lemma {:induction false} EscapeWithoutQuote(a: string)
    requires NoQuote(a)
    ensures Escape(a) == a
    decreases |a|
  {
    if a != [] {
      assert NoQuote(a[1..]);
      EscapeWithoutQuote(a[1..]);
      assert a == [a[0]] + a[1..];
    }
  }

  /** Inside an open quote, the escaped form of `a` followed by the closing
      quote adds exactly `a` to the current word. */
  lemma {:induction false} ScanEscaped(a: string, rest: string, done: seq<string>, w: string)
    ensures Scan(Escape(a) + "'" + rest, done, Some(w), true) == Scan(rest, done, Some(w + a), false)
    decreases |a|
  {
    if a == [] {
      assert Escape(a) + "'" + rest == "'" + rest;
      assert ("'" + rest)[1..] == rest;
      assert w + a == w;
    } else {
      var tail := Escape(a[1..]) + "'" + rest;
      ScanEscaped(a[1..], rest, done, w + [a[0]]);
      assert w + [a[0]] + a[1..] == w + a;
      if a[0] == '\'' {
        var s := "'\\''" + tail;
        assert Escape(a) + "'" + rest == s;
        var s1 := "\\''" + tail;
        var s2 := "'" + tail;
        assert s[1..] == s1 && s1[0] == '\\' && s1[1] == '\'' && s1[2..] == s2 && s2[1..] == tail;
        assert Scan(s, done, Some(w), true) == Scan(s1, done, Some(w), false);
        assert Scan(s1, done, Some(w), false) == Scan(s2, done, Some(w + "'"), false);
        assert Scan(s2, done, Some(w + "'"), false) == Scan(tail, done, Some(w + "'" + ""), true);
        assert w + "'" + "" == w + [a[0]];
      } else {
        var s := [a[0]] + tail;
        assert Escape(a) + "'" + rest == s;
        assert s[1..] == tail;
      }
    }
  }

  /** A quoted argument followed by the rest of a line leaves `a` as the
      current word. */
  lemma ScanQuote(a: string, rest: string, done: seq<string>)
    ensures Scan(Quote(a) + rest, done, None, false) == Scan(rest, done, Some(a), false)
  {
    var s := Quote(a) + rest;
    assert s == "'" + (Escape(a) + "'" + rest);
    assert s[1..] == Escape(a) + "'" + rest;
    ScanEscaped(a, rest, done, "");
    assert "" + a == a;
  }

  lemma {:induction false} ScanQuoted(args: seq<string>, done: seq<string>, w: string)
    ensures Scan(Quoted(args), done, Some(w), false) == Some(done + [w] + args)
    decreases |args|
  {
    if args == [] {
      assert done + [w] + args == done + [w];
    } else {
      var s := Quoted(args);
      var tail := Quote(args[0]) + Quoted(args[1..]);
      assert s == " " + tail;
      assert s[1..] == tail;
      ScanQuote(args[0], Quoted(args[1..]), done + [w]);
      ScanQuoted(args[1..], done + [w], args[0]);
      assert done + [w] + [args[0]] + args[1..] == done + [w] + args;
    }
  }

  /** A word of plain characters extends the current word. */
  lemma {:induction false} ScanPlain(p: string, rest: string, done: seq<string>, cur: Option<string>)
    requires |p| > 0 && forall i :: 0 <= i < |p| ==> IsPlain(p[i])
    ensures Scan(p + rest, done, cur, false) == Scan(rest, done, Some(Extend(cur, p)), false)
    decreases |p|
  {
    var s := p + rest;
    assert s[0] == p[0] && s[1..] == p[1..] + rest;
    if |p| > 1 {
      ScanPlain(p[1..], rest, done, Some(Extend(cur, [p[0]])));
      assert Extend(cur, [p[0]]) + p[1..] == Extend(cur, p);
    } else {
      assert p[1..] + rest == rest && [p[0]] == p;
    }
  }

  lemma PlainWords()
    ensures forall i :: 0 <= i < |"python3"| ==> IsPlain("python3"[i])
    ensures forall i :: 0 <= i < |"command.py"| ==> IsPlain("command.py"[i])
  {
  }

  /** The program and script names come out as the first two words. */
  lemma ScanPrefix(rest: string)
    ensures Scan("python3" + " " + "command.py" + rest, [], None, false)
         == Scan(rest, ["python3"], Some("command.py"), false)
  {
    var tail := " " + ("command.py" + rest);
    assert "python3" + " " + "command.py" + rest == "python3" + tail;
    PlainWords();
    ScanPlain("python3", tail, [], None);
    assert Extend(None, "python3") == "python3";
    assert tail[0] == ' ' && tail[1..] == "command.py" + rest;
    assert Scan(tail, [], Some("python3"), false) == Scan("command.py" + rest, ["python3"], None, false) by {
      assert Flush([], Some("python3")) == ["python3"];
    }
    ScanPlain("command.py", rest, ["python3"], None);
    assert Extend(None, "command.py") == "command.py";
  }

  lemma QuotedCons(x: string, rest: seq<string>)
    ensures Quoted([x] + rest) == " " + Quote(x) + Quoted(rest)
  {
  }

  lemma PastedCons(x: string, rest: seq<string>)
    ensures Pasted([x] + rest) == " '" + x + "'" + Pasted(rest)
  {
  }

  /** Pasting and quoting agree on arguments without a single quote. */
  lemma {:induction false} PastedWithoutQuotes(args: seq<string>)
    requires forall i :: 0 <= i < |args| ==> NoQuote(args[i])
    ensures Pasted(args) == Quoted(args)
    decreases |args|
  {
    if args != [] {
      EscapeWithoutQuote(args[0]);
      PastedWithoutQuotes(args[1..]);
    }
  }

  /** The corrected line hands the handler exactly the job's four
      arguments, whatever characters they contain. */
  lemma CommandRoundTrip(job: DispatchJob)
    ensures Split(Command(job)) == Some(["python3", "command.py"] + job.Argv())
  {
    ScanPrefix(Quoted(job.Argv()));
    ScanQuoted(job.Argv(), ["python3"], "command.py");
    assert ["python3"] + ["command.py"] + job.Argv() == ["python3", "command.py"] + job.Argv();
  }

  /** As written, the line is the corrected one whenever no argument
      contains a single quote. */
  lemma AsWrittenWithoutQuotes(job: DispatchJob)
    requires forall i :: 0 <= i < 4 ==> NoQuote(job.Argv()[i])
    ensures CommandAsWritten(job) == Command(job)
  {
    PastedWithoutQuotes(job.Argv());
  }

  lemma PastedQuotePairHead(p: string, q: string, after: seq<string>)
    requires NoQuote(p) && NoQuote(q)
    requires forall i :: 0 <= i < |after| ==> NoQuote(after[i])
    ensures Pasted([p + "' '" + q] + after) == Quoted([p] + ([q] + after))
  {
    var rest := Quoted(after);
    PastedCons(p + "' '" + q, after);
    PastedWithoutQuotes(after);
    QuotedCons(p, [q] + after);
    QuotedCons(q, after);
    PairShape(p, q, rest);
  }

  lemma PairShape(p: string, q: string, rest: string)
    requires NoQuote(p) && NoQuote(q)
    ensures " '" + (p + "' '" + q) + "'" + rest == " " + Quote(p) + (" " + Quote(q) + rest)
  {
    EscapeWithoutQuote(p);
    EscapeWithoutQuote(q);
    Reassociate(p, q, rest);
  }

  lemma Reassociate(p: string, q: string, rest: string)
    ensures " '" + (p + "' '" + q) + "'" + rest == " " + ("'" + p + "'") + (" " + ("'" + q + "'") + rest)
  {
  }

  /** Pasted unescaped, an argument `p' 'q` reads as the two arguments
      `p` and `q`. */
  lemma {:induction false} PastedQuotePair(p: string, q: string, before: seq<string>, after: seq<string>)
    requires NoQuote(p) && NoQuote(q)
    requires forall i :: 0 <= i < |before| ==> NoQuote(before[i])
    requires forall i :: 0 <= i < |after| ==> NoQuote(after[i])
    ensures Pasted(before + [p + "' '" + q] + after) == Quoted(before + [p, q] + after)
    decreases |before|
  {
    if before == [] {
      assert before + [p + "' '" + q] + after == [p + "' '" + q] + after;
      assert before + [p, q] + after == [p] + ([q] + after);
      PastedQuotePairHead(p, q, after);
    } else {
      var b, bs := before[0], before[1..];
      assert before + [p + "' '" + q] + after == [b] + (bs + [p + "' '" + q] + after) by {
        assert before == [b] + bs;
      }
      assert before + [p, q] + after == [b] + (bs + [p, q] + after) by {
        assert before == [b] + bs;
      }
      PastedQuotePair(p, q, bs, after);
      PastedQuotePairStep(b, bs + [p + "' '" + q] + after, bs + [p, q] + after);
    }
  }

  lemma PastedQuotePairStep(b: string, pasted: seq<string>, quoted: seq<string>)
    requires NoQuote(b) && Pasted(pasted) == Quoted(quoted)
    ensures Pasted([b] + pasted) == Quoted([b] + quoted)
  {
    PastedCons(b, pasted);
    QuotedCons(b, quoted);
    EscapeWithoutQuote(b);
  }

  /** The job for text `a' 'b` from "bob", pasted as written, is the
      properly quoted line of five arguments. */
  lemma AsWrittenQuotePairLine()
    ensures CommandAsWritten(DispatchJob("bob", "a' 'b", 0, 0))
         == "python3" + " " + "command.py" + Quoted(["bob", "a", "b", "0", "0"])
  {
    SmallCodes();
    assert "a" + "' '" + "b" == "a' 'b";
    assert DispatchJob("bob", "a' 'b", 0, 0).Argv() == ["bob"] + ["a" + "' '" + "b"] + ["0", "0"];
    assert ["bob"] + ["a", "b"] + ["0", "0"] == ["bob", "a", "b", "0", "0"];
    PastedQuotePair("a", "b", ["bob"], ["0", "0"]);
  }

  /** As written, a text message `a' 'b` from "bob" reaches the handler as
      two arguments `a` and `b`, pushing the channel into the type slot. */
  lemma AsWrittenSplitsQuotedContent()
    ensures Split(CommandAsWritten(DispatchJob("bob", "a' 'b", 0, 0)))
         == Some(["python3", "command.py", "bob", "a", "b", "0", "0"])
    ensures Split(CommandAsWritten(DispatchJob("bob", "a' 'b", 0, 0)))
         != Some(["python3", "command.py"] + DispatchJob("bob", "a' 'b", 0, 0).Argv())
  {
    var words := ["bob", "a", "b", "0", "0"];
    AsWrittenQuotePairLine();
    ScanPrefix(Quoted(words));
    ScanQuoted(words, ["python3"], "command.py");
    assert ["python3"] + ["command.py"] + words == ["python3", "command.py", "bob", "a", "b", "0", "0"];
    assert DispatchJob("bob", "a' 'b", 0, 0).Argv()[1] == "a' 'b";
  }
}
