/**
 The command-line printer, the splitter that `CommandLineToArgvW` documents, and exactly which argument
 lists survive printing and splitting.
 */
module CommandLine {

  const QUOTE: char := '"'
  const SLASH: char := '\\'
  const SPACE: char := ' '
  const TAB: char := '\t'

  // ---------------------------------------------------------------------------------------------
  // Printing

  /** The argument gets surrounding quotes. */
  predicate Special(arg: string) {
    SPACE in arg || QUOTE in arg
  }

  /** Every quote preceded by a backslash. */
  function Substituted(arg: string): string {
    if arg == "" then ""
    else (if arg[0] == QUOTE then [SLASH, QUOTE] else [arg[0]]) + Substituted(arg[1..])
  }

  function Escaped(arg: string): string {
    if Special(arg) then [QUOTE] + Substituted(arg) + [QUOTE] else Substituted(arg)
  }

  function MakeCommandLine(args: seq<string>): string {
    if |args| == 0 then ""
    else if |args| == 1 then Escaped(args[0])
    else Escaped(args[0]) + [SPACE] + MakeCommandLine(args[1..])
  }

  lemma {:induction false} SubstitutedPlain(arg: string)
    requires QUOTE !in arg
    ensures Substituted(arg) == arg
  {
    if arg != "" {
      SubstitutedPlain(arg[1..]);
      assert arg == [arg[0]] + arg[1..];
    }
  }

  /** The closing quote is decided by looking at the first character already written. */
  method Escape(arg: string) returns (result: string)
    ensures result == Escaped(arg)
  {
    result := "";
    if exists i | 0 <= i < |arg| :: arg[i] == SPACE || arg[i] == QUOTE {
      result := result + [QUOTE];
    }
    assert Special(arg) <==> result == [QUOTE];
    if !Special(arg) {
      SubstitutedPlain(arg);
    }
    result := result + Substituted(arg);
    if result != "" && result[0] == QUOTE {
      result := result + [QUOTE];
    }
  }

  // ---------------------------------------------------------------------------------------------
  // Splitting

  function Slashes(n: nat): string {
    if n == 0 then "" else Slashes(n - 1) + [SLASH]
  }

  /**
   The splitter between two characters: finished arguments, whether an argument has begun, its text so far,
   whether we are inside quotes, and the backslashes whose meaning the next character decides.
   */
  datatype Scan = Scan(done: seq<string>, open: bool, text: string, quoted: bool, slashes: nat)

  function Between(done: seq<string>): Scan {
    Scan(done, false, "", false, 0)
  }

  predicate White(ch: char) {
    ch == SPACE || ch == TAB
  }

  /** The text of the current argument if its pending backslashes are literal. */
  function Text(st: Scan): string {
    st.text + Slashes(st.slashes)
  }

  function Close(st: Scan): seq<string> {
    if st.open then st.done + [Text(st)] else st.done
  }

  /**
   Backslashes are literal unless they precede a quote: then each pair stands for one, and a last odd one
   makes the quote literal; an unescaped quote opens or closes a quoted stretch.
   */
  function Step(st: Scan, ch: char): Scan {
    if ch == SLASH then st.(open := true, slashes := st.slashes + 1)
    else if ch == QUOTE then
      if st.slashes % 2 == 0 then
        st.(open := true, text := st.text + Slashes(st.slashes / 2), quoted := !st.quoted, slashes := 0)
      else
        st.(open := true, text := st.text + Slashes(st.slashes / 2) + [QUOTE], slashes := 0)
    else if White(ch) && !st.quoted then Between(Close(st))
    else st.(open := true, text := Text(st) + [ch], slashes := 0)
  }

  function Feed(st: Scan, s: string): Scan
    decreases |s|
  {
    if s == "" then st else Feed(Step(st, s[0]), s[1..])
  }

  /** The arguments after the program name. */
  function SplitTail(s: string): seq<string> {
    Close(Feed(Between([]), s))
  }

  lemma {:induction false} FeedAppend(st: Scan, s: string, t: string)
    ensures Feed(st, s + t) == Feed(Feed(st, s), t)
    decreases |s|
  {
    if s == "" {
      assert s + t == t;
    } else {
      assert (s + t)[0] == s[0] && (s + t)[1..] == s[1..] + t;
      FeedAppend(Step(st, s[0]), s[1..], t);
    }
  }

  lemma {:induction false} FeedSlashes(st: Scan, n: nat)
    requires n > 0
    ensures Feed(st, Slashes(n)) == st.(open := true, slashes := st.slashes + n)
  {
    var st1 := if n == 1 then st else st.(open := true, slashes := st.slashes + n - 1);
    if n > 1 {
      FeedSlashes(st, n - 1);
    }
    FeedAppend(st, Slashes(n - 1), [SLASH]);
    assert Feed(st1, [SLASH]) == Step(st1, SLASH);
  }

  /**
   The documented rule: 2n backslashes and a quote give n backslashes and a delimiter, 2n+1 give n
   backslashes and a literal quote; n backslashes before anything else are n backslashes.
   */
  lemma DocumentedBackslashRule(st: Scan, n: nat, ch: char)
    requires st.open && st.slashes == 0
    ensures Feed(st, Slashes(2 * n) + [QUOTE]) == st.(text := st.text + Slashes(n), quoted := !st.quoted)
    ensures Feed(st, Slashes(2 * n + 1) + [QUOTE]) == st.(text := st.text + Slashes(n) + [QUOTE])
    ensures ch != SLASH && ch != QUOTE && !White(ch) ==>
              Feed(st, Slashes(n) + [ch]) == st.(text := st.text + Slashes(n) + [ch])
  {
    RuleAt(st, 2 * n, QUOTE);
    RuleAt(st, 2 * n + 1, QUOTE);
    RuleAt(st, n, ch);
    assert 2 * n / 2 == n && (2 * n + 1) / 2 == n && 2 * n % 2 == 0;
  }

  lemma RuleAt(st: Scan, n: nat, ch: char)
    requires st.open && st.slashes == 0
    ensures Feed(st, Slashes(n) + [ch]) == Step(st.(slashes := n), ch)
  {
    FeedAppend(st, Slashes(n), [ch]);
    if n > 0 {
      FeedSlashes(st, n);
    }
    var st1 := st.(slashes := n);
    assert Feed(st1, [ch]) == Feed(Step(st1, ch), [ch][1..]);
  }

  // ---------------------------------------------------------------------------------------------
  // The whole command line

  /** Where the program name ends: at the next quote if it starts with one, else at the first white space. */
  function NameEnd(s: string, quoted: bool): nat
    ensures NameEnd(s, quoted) <= |s|
  {
    if s == "" || (if quoted then s[0] == QUOTE else White(s[0])) then 0 else 1 + NameEnd(s[1..], quoted)
  }

  /**
   `CommandLineToArgvW`: an empty command line stands for the path of the executable; otherwise the first
   argument is a program name, in which backslashes mean nothing, and the tail rules apply to the rest.
   */
  function ToArgv(line: string, executable: string): seq<string> {
    if line == "" then [executable]
    else if line[0] == QUOTE then
      var n := NameEnd(line[1..], true);
      [line[1..n + 1]] + SplitTail(if n + 2 <= |line| then line[n + 2..] else "")
    else
      var n := NameEnd(line, false);
      [line[..n]] + SplitTail(line[n..])
  }

  /** `fails` is a null result of `CommandLineToArgvW`. */
  method ParseCommandLine(line: string, executable: string, fails: bool) returns (result: seq<string>)
    ensures result == if fails then [] else ToArgv(line, executable)
  {
    result := [];
    if !fails {
      var argv := ToArgv(line, executable);
      for i := 0 to |argv|
        invariant result == argv[..i]
      {
        result := result + [argv[i]];
      }
    }
  }
}
