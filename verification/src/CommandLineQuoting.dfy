/**
 The splitter against two independent accounts of it: a quoting that it inverts on every list of arguments, and a
 reader that looks ahead instead of keeping backslashes pending.
 */
module CommandLineQuoting {
  import opened CommandLine
  import opened CommandLineRoundTrip

  // ---------------------------------------------------------------------------------------------
  // A quoting that loses nothing

  /** Inside quotes, after `n` backslashes that are still to be written: they are doubled only before a quote. */
  function Protected(arg: string, n: nat): string {
    if arg == "" then Slashes(2 * n)
    else if arg[0] == SLASH then Protected(arg[1..], n + 1)
    else if arg[0] == QUOTE then Slashes(2 * n + 1) + [QUOTE] + Protected(arg[1..], 0)
    else Slashes(n) + [arg[0]] + Protected(arg[1..], 0)
  }

  function Quoted(arg: string): string {
    [QUOTE] + Protected(arg, 0) + [QUOTE]
  }

  /** Every argument quoted, joined by spaces. */
  function QuoteAll(args: seq<string>): string {
    if |args| == 0 then ""
    else if |args| == 1 then Quoted(args[0])
    else Quoted(args[0]) + [SPACE] + QuoteAll(args[1..])
  }

  /** What has been read of an argument once its closing quote is there. */
  lemma {:induction false} ProtectedFeed(st: Scan, arg: string, n: nat)
    requires st.open && st.quoted && st.slashes == 0
    ensures Feed(st, Protected(arg, n) + [QUOTE]) == st.(text := st.text + Slashes(n) + arg, quoted := false)
    decreases |arg|
  {
    if arg == "" {
      DocumentedBackslashRule(st, n, SPACE);
    } else if arg[0] == SLASH {
      ProtectedFeed(st, arg[1..], n + 1);
      SlashMoves(st.text, n, arg);
    } else {
      var front := if arg[0] == QUOTE then Slashes(2 * n + 1) + [QUOTE] else Slashes(n) + [arg[0]];
      var next := st.(text := st.text + Slashes(n) + [arg[0]]);
      var rest := Protected(arg[1..], 0) + [QUOTE];
      OrdinaryFeed(st, n, arg[0]);
      FeedAppend(st, front, rest);
      assert Protected(arg, n) + [QUOTE] == front + rest;
      ProtectedFeed(next, arg[1..], 0);
      TextMoves(st.text, n, arg);
    }
  }

  lemma SlashMoves(text: string, n: nat, arg: string)
    requires arg != "" && arg[0] == SLASH
    ensures text + Slashes(n + 1) + arg[1..] == text + Slashes(n) + arg
  {
    assert [SLASH] + arg[1..] == arg;
    assert text + (Slashes(n) + [SLASH]) + arg[1..] == text + Slashes(n) + ([SLASH] + arg[1..]);
  }

  lemma TextMoves(text: string, n: nat, arg: string)
    requires arg != ""
    ensures text + Slashes(n) + [arg[0]] + Slashes(0) + arg[1..] == text + Slashes(n) + arg
  {
    assert [arg[0]] + arg[1..] == arg;
    assert text + Slashes(n) + [arg[0]] + Slashes(0) + arg[1..] == text + Slashes(n) + ([arg[0]] + arg[1..]);
  }

  /** A character other than a backslash inside quotes, with its backslashes and, if it is a quote, its escape. */
  lemma OrdinaryFeed(st: Scan, n: nat, ch: char)
    requires st.open && st.quoted && st.slashes == 0 && ch != SLASH
    ensures Feed(st, if ch == QUOTE then Slashes(2 * n + 1) + [QUOTE] else Slashes(n) + [ch])
         == st.(text := st.text + Slashes(n) + [ch])
  {
    if ch == QUOTE {
      DocumentedBackslashRule(st, n, SPACE);
    } else {
      RuleAt(st, n, ch);
    }
  }

  lemma QuotedIsRead(done: seq<string>, arg: string)
    ensures Feed(Between(done), Quoted(arg)) == Scan(done, true, arg, false, 0)
  {
    var st := Scan(done, true, "", true, 0);
    assert Quoted(arg) == [QUOTE] + (Protected(arg, 0) + [QUOTE]);
    FeedAppend(Between(done), [QUOTE], Protected(arg, 0) + [QUOTE]);
    FeedOne(Between(done), QUOTE);
    assert "" + Slashes(0) == "";
    ProtectedFeed(st, arg, 0);
    assert "" + Slashes(0) + arg == arg;
  }

  lemma {:induction false} QuoteAllIsRead(done: seq<string>, args: seq<string>)
    ensures Close(Feed(Between(done), QuoteAll(args))) == done + args
    decreases |args|
  {
    if args == [] {
      assert done + args == done;
    } else {
      var st := Scan(done, true, args[0], false, 0);
      QuotedIsRead(done, args[0]);
      assert args[0] + Slashes(0) == args[0];
      if |args| == 1 {
        assert args == [args[0]];
      } else {
        var line := QuoteAll(args[1..]);
        assert QuoteAll(args) == Quoted(args[0]) + ([SPACE] + line);
        FeedAppend(Between(done), Quoted(args[0]), [SPACE] + line);
        SpaceFeed(st, line);
        QuoteAllIsRead(done + [args[0]], args[1..]);
        assert done + [args[0]] + args[1..] == done + args;
      }
    }
  }

  /** Every list of arguments is what some line is split into: quoted so, nothing is lost, not even empty arguments. */
  lemma SplitOfQuoteAll(args: seq<string>)
    ensures SplitTail(QuoteAll(args)) == args
  {
    QuoteAllIsRead([], args);
    assert [] + args == args;
  }

  /** The same for whole command lines: a quoted program name, and whatever arguments. */
  lemma ArgvOfQuoteAll(name: string, args: seq<string>, executable: string)
    requires QUOTE !in name
    ensures ToArgv([QUOTE] + name + [QUOTE, SPACE] + QuoteAll(args), executable) == [name] + args
  {
    var tail := [QUOTE, SPACE] + QuoteAll(args);
    assert [QUOTE] + name + [QUOTE, SPACE] + QuoteAll(args) == [QUOTE] + name + tail;
    QuotedName(name, tail, executable);
    assert tail[1..] == [SPACE] + QuoteAll(args);
    assert Feed(Between([]), tail[1..]) == Feed(Between([]), QuoteAll(args)) by {
      SpaceFeed(Between([]), QuoteAll(args));
    }
    SplitOfQuoteAll(args);
  }

  // ---------------------------------------------------------------------------------------------
  // A reader that looks ahead

  /** How many backslashes a string begins with. */
  function Leading(s: string): (n: nat)
    ensures n <= |s| && s[..n] == Slashes(n) && (n < |s| ==> s[n] != SLASH)
  {
    if s == "" || s[0] != SLASH then 0
    else
      var n := Leading(s[1..]);
      SlashesBefore(n);
      assert s[..n + 1] == [SLASH] + s[1..][..n];
      n + 1
  }

  lemma {:induction false} SlashesBefore(n: nat)
    ensures Slashes(n + 1) == [SLASH] + Slashes(n)
  {
    if n > 0 {
      SlashesBefore(n - 1);
    }
  }

  /** What backslashes and the character after them add to an argument. */
  function Added(n: nat, ch: char): string {
    if ch == QUOTE then Slashes(n / 2) + (if n % 2 == 0 then "" else [QUOTE]) else Slashes(n) + [ch]
  }

  /** One argument and what is left of the line; `quoted` says on which side of a quote the reading goes on. */
  function ReadArg(s: string, quoted: bool): (r: (string, string))
    ensures |r.1| <= |s| && (s != "" && (quoted || !White(s[0])) ==> |r.1| < |s|)
    decreases |s|
  {
    var n := Leading(s);
    if n == |s| then (s, "")
    else if White(s[n]) && !quoted then (s[..n], s[n..])
    else
      var (text, rest) := ReadArg(s[n + 1..], if s[n] == QUOTE && n % 2 == 0 then !quoted else quoted);
      (Added(n, s[n]) + text, rest)
  }

  /** All arguments: white space between them is skipped, and every other character begins one. */
  function ReadAll(s: string): seq<string>
    decreases |s|
  {
    if s == "" then []
    else if White(s[0]) then ReadAll(s[1..])
    else
      var (text, rest) := ReadArg(s, false);
      [text] + ReadAll(rest)
  }

  lemma {:induction false} ReadsArg(st: Scan, s: string)
    requires st.open && st.slashes == 0
    ensures var r := ReadArg(s, st.quoted);
            var done := st.done + [st.text + r.0];
            Close(Feed(st, s)) == if r.1 == "" then done else Close(Feed(Between(done), r.1))
    decreases |s|
  {
    var n := Leading(s);
    if n == |s| {
      AllSlashes(st, s, n);
    } else {
      var rest := s[n + 1..];
      var next := Step(st.(slashes := n), s[n]);
      FeedPast(st, s, n);
      if White(s[n]) && !st.quoted {
        EndsArg(st, s, n);
      } else {
        hide Feed;
        hide Close;
        hide Leading;
        ReadsArg(next, rest);
        Associates(st.text, Added(n, s[n]), ReadArg(rest, next.quoted).0);
        AddsToText(st, n, s[n]);
      }
    }
  }

  lemma AddsToText(st: Scan, n: nat, ch: char)
    requires st.open && st.slashes == 0 && ch != SLASH && (ch == QUOTE || !White(ch) || st.quoted)
    ensures Step(st.(slashes := n), ch) ==
            st.(text := st.text + Added(n, ch), quoted := if ch == QUOTE && n % 2 == 0 then !st.quoted else st.quoted)
  {
    assert st.text + (Slashes(n) + [ch]) == st.text + Slashes(n) + [ch];
    assert st.text + (Slashes(n / 2) + [QUOTE]) == st.text + Slashes(n / 2) + [QUOTE];
    assert st.text + (Slashes(n / 2) + "") == st.text + Slashes(n / 2);
  }

  lemma FeedPast(st: Scan, s: string, n: nat)
    requires st.open && st.slashes == 0 && n < |s| && s[..n] == Slashes(n)
    ensures Feed(st, s) == Feed(Step(st.(slashes := n), s[n]), s[n + 1..])
  {
    assert s == Slashes(n) + [s[n]] + s[n + 1..];
    FeedAppend(st, Slashes(n) + [s[n]], s[n + 1..]);
    RuleAt(st, n, s[n]);
  }

  /** White space outside quotes ends the argument, and reading the rest from there is reading it from after it. */
  lemma EndsArg(st: Scan, s: string, n: nat)
    requires st.open && st.slashes == 0 && n < |s| && s[..n] == Slashes(n) && White(s[n]) && !st.quoted
    ensures var next, done := Step(st.(slashes := n), s[n]), st.done + [st.text + s[..n]];
            Feed(next, s[n + 1..]) == Feed(Between(done), s[n..])
  {
    assert s[n..] == [s[n]] + s[n + 1..];
    FeedAppend(Between(st.done + [st.text + s[..n]]), [s[n]], s[n + 1..]);
    FeedOne(Between(st.done + [st.text + s[..n]]), s[n]);
  }

  lemma AllSlashes(st: Scan, s: string, n: nat)
    requires st.open && st.slashes == 0 && s == Slashes(n)
    ensures Close(Feed(st, s)) == st.done + [st.text + s]
  {
    if n > 0 {
      FeedSlashes(st, n);
    } else {
      assert s == "";
    }
  }

  lemma Associates(a: string, b: string, c: string)
    ensures a + b + c == a + (b + c)
  {
  }

  /** How the splitter begins: white space is skipped, and anything else opens an argument. */
  lemma BeginsArg(done: seq<string>, s: string)
    ensures s == "" ==> Close(Feed(Between(done), s)) == done
    ensures s != "" && White(s[0]) ==> Feed(Between(done), s) == Feed(Between(done), s[1..])
    ensures s != "" && !White(s[0]) ==> Feed(Between(done), s) == Feed(Scan(done, true, "", false, 0), s)
  {
    if s != "" && !White(s[0]) {
      assert Step(Scan(done, true, "", false, 0), s[0]) == Step(Between(done), s[0]);
    }
  }

  lemma {:induction false} ReadsAll(done: seq<string>, s: string)
    ensures Close(Feed(Between(done), s)) == done + ReadAll(s)
    decreases |s|
  {
    hide Feed;
    hide Close;
    hide ReadArg;
    BeginsArg(done, s);
    if s == "" {
      assert done + [] == done;
    } else if White(s[0]) {
      ReadsAll(done, s[1..]);
    } else {
      ReadsArg(Scan(done, true, "", false, 0), s);
      var (text, rest) := ReadArg(s, false);
      assert "" + text == text;
      ReadsAll(done + [text], rest);
      assert done + [text] + ReadAll(rest) == done + ([text] + ReadAll(rest));
    }
  }

  /** On every string the splitter and the reader give the same arguments. */
  lemma SplitIsReadAll(s: string)
    ensures SplitTail(s) == ReadAll(s)
  {
    ReadsAll([], s);
    assert [] + ReadAll(s) == ReadAll(s);
  }
}
