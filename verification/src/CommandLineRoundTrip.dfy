/** Which argument lists come back when a printed command line is split again: an exact answer. */
module CommandLineRoundTrip {
  import opened CommandLine

  /** Some backslash stands directly before a quote. */
  predicate SlashBeforeQuote(arg: string) {
    exists i {:trigger arg[i]} :: 0 <= i && i + 1 < |arg| && arg[i] == SLASH && arg[i + 1] == QUOTE
  }

  /** The backslashes of the argument cannot touch a quote once it is printed. */
  predicate Sound(arg: string) {
    !SlashBeforeQuote(arg) && (Special(arg) ==> arg[|arg| - 1] != SLASH)
  }

  /** What a caller can check of an argument before printing it. */
  predicate Faithful(arg: string) {
    arg != "" && Sound(arg) && (TAB in arg ==> Special(arg))
  }

  // ---------------------------------------------------------------------------------------------
  // What splitting keeps and loses, counted

  function Occurs(s: string, ch: char): nat {
    multiset(s)[ch]
  }

  function Total(args: seq<string>, ch: char): nat {
    if args == [] then 0 else Total(args[..|args| - 1], ch) + Occurs(args[|args| - 1], ch)
  }

  lemma TotalExtend(args: seq<string>, arg: string, ch: char)
    ensures Total(args + [arg], ch) == Total(args, ch) + Occurs(arg, ch)
  {
    assert (args + [arg])[..|args|] == args;
  }

  lemma {:induction false} TotalPrepend(arg: string, args: seq<string>, ch: char)
    ensures Total([arg] + args, ch) == Occurs(arg, ch) + Total(args, ch)
  {
    if args == [] {
      assert ([arg] + args)[..0] == [];
    } else {
      var n := |args| - 1;
      assert ([arg] + args)[..n + 1] == [arg] + args[..n];
      TotalPrepend(arg, args[..n], ch);
    }
  }

  lemma OccursAppend(s: string, t: string, ch: char)
    ensures Occurs(s + t, ch) == Occurs(s, ch) + Occurs(t, ch)
  {
    assert multiset(s + t) == multiset(s) + multiset(t);
  }

  lemma {:induction false} OccursSlashes(n: nat, ch: char)
    ensures Occurs(Slashes(n), ch) == if ch == SLASH then n else 0
  {
    if n > 0 {
      OccursSlashes(n - 1, ch);
      OccursAppend(Slashes(n - 1), [SLASH], ch);
    }
  }

  /** How often `ch` is held by the scan: finished, current and pending. */
  function Held(st: Scan, ch: char): nat {
    Total(st.done, ch) + Occurs(st.text, ch) + (if ch == SLASH then st.slashes else 0)
  }

  ghost predicate Shape(st: Scan) {
    !st.open ==> st.text == "" && st.slashes == 0
  }

  lemma HeldClose(st: Scan, ch: char)
    requires Shape(st)
    ensures Total(Close(st), ch) == Held(st, ch)
  {
    if st.open {
      TotalExtend(st.done, Text(st), ch);
      OccursAppend(st.text, Slashes(st.slashes), ch);
      OccursSlashes(st.slashes, ch);
    }
  }

  /** A run of `b` backslashes before a quote costs its half, rounded up, and pays one back if it is odd. */
  function Cost(b: nat): nat
    ensures Cost(b) == 0 <==> b <= 1
  {
    (b + 1) / 2 - b % 2
  }

  /** The characters lost over a string that starts with `b` backslashes pending. */
  function Loss(s: string, b: nat): nat
    decreases |s|
  {
    if s == "" then 0
    else if s[0] == SLASH then Loss(s[1..], b + 1)
    else if s[0] == QUOTE then Cost(b) + Loss(s[1..], 0)
    else Loss(s[1..], 0)
  }

  /** The quotes that come out literally. */
  function Literals(s: string, b: nat): nat
    decreases |s|
  {
    if s == "" then 0
    else if s[0] == SLASH then Literals(s[1..], b + 1)
    else if s[0] == QUOTE then b % 2 + Literals(s[1..], 0)
    else Literals(s[1..], 0)
  }

  /** The backslashes pending at the end of a string. */
  function Pending(s: string, b: nat): nat
    decreases |s|
  {
    if s == "" then b else Pending(s[1..], if s[0] == SLASH then b + 1 else 0)
  }

  /** An ordinary character: pending backslashes become text, finished arguments stay finished. */
  lemma HeldPlain(st: Scan, ch: char, c: char)
    requires Shape(st) && ch != QUOTE && ch != SLASH && (c == QUOTE || c == SLASH)
    ensures Held(Step(st, ch), c) == Held(st, c)
  {
    HeldClose(st, c);
    OccursSlashes(st.slashes, c);
    OccursAppend(st.text, Slashes(st.slashes), c);
    OccursAppend(Text(st), [ch], c);
  }

  lemma HeldQuote(st: Scan, c: char)
    requires c == QUOTE || c == SLASH
    ensures Held(Step(st, QUOTE), c) ==
            Total(st.done, c) + Occurs(st.text, c) + (if c == SLASH then st.slashes / 2 else st.slashes % 2)
  {
    var half := Slashes(st.slashes / 2);
    OccursSlashes(st.slashes / 2, c);
    OccursAppend(st.text, half, c);
    OccursAppend(st.text + half, [QUOTE], c);
  }

  /** What one character adds to the literal quotes, and to quotes and backslashes together. */
  function Gain(b: nat, ch: char): int {
    if ch == SLASH then 1 else if ch == QUOTE then 0 - Cost(b) else 0
  }

  lemma HeldStep(st: Scan, ch: char)
    requires Shape(st)
    ensures Shape(Step(st, ch)) && Step(st, ch).slashes == if ch == SLASH then st.slashes + 1 else 0
    ensures Held(Step(st, ch), QUOTE) == Held(st, QUOTE) + (if ch == QUOTE then st.slashes % 2 else 0)
    ensures Held(Step(st, ch), SLASH) + Held(Step(st, ch), QUOTE)
            == Held(st, SLASH) + Held(st, QUOTE) + Gain(st.slashes, ch)
  {
    if ch == QUOTE {
      HeldQuote(st, QUOTE);
      HeldQuote(st, SLASH);
    } else if ch != SLASH {
      HeldPlain(st, ch, QUOTE);
      HeldPlain(st, ch, SLASH);
    }
  }

  lemma LossStep(s: string, b: nat)
    requires s != ""
    ensures var b' := if s[0] == SLASH then b + 1 else 0;
            && Loss(s, b) - Occurs(s, SLASH) == Loss(s[1..], b') - Occurs(s[1..], SLASH) - Gain(b, s[0])
            && Literals(s, b) == Literals(s[1..], b') + (if s[0] == QUOTE then b % 2 else 0)
  {
    assert s == [s[0]] + s[1..];
    OccursAppend([s[0]], s[1..], SLASH);
  }

  lemma {:induction false} HeldFeed(st: Scan, s: string)
    requires Shape(st)
    ensures Shape(Feed(st, s))
    ensures Held(Feed(st, s), QUOTE) == Held(st, QUOTE) + Literals(s, st.slashes)
    ensures Held(Feed(st, s), SLASH) + Held(Feed(st, s), QUOTE) + Loss(s, st.slashes)
            == Held(st, SLASH) + Held(st, QUOTE) + Occurs(s, SLASH)
    decreases |s|
  {
    if s != "" {
      HeldStep(st, s[0]);
      HeldFeed(Step(st, s[0]), s[1..]);
      LossStep(s, st.slashes);
    }
  }

  /**
   Conservation: every quote that comes out was literal, and the backslashes and quotes that come out,
   together with the loss, make up the backslashes that went in.
   */
  lemma SplitConserves(s: string)
    ensures Total(SplitTail(s), QUOTE) == Literals(s, 0)
    ensures Total(SplitTail(s), SLASH) + Total(SplitTail(s), QUOTE) + Loss(s, 0) == Occurs(s, SLASH)
  {
    HeldFeed(Between([]), s);
    HeldClose(Feed(Between([]), s), QUOTE);
    HeldClose(Feed(Between([]), s), SLASH);
  }

  // ---------------------------------------------------------------------------------------------
  // Necessity: a list that comes back has only sound arguments

  lemma {:induction false} LossAppend(s: string, t: string, b: nat)
    ensures Loss(s + t, b) == Loss(s, b) + Loss(t, Pending(s, b))
    ensures Literals(s + t, b) == Literals(s, b) + Literals(t, Pending(s, b))
    decreases |s|
  {
    if s == "" {
      assert s + t == t;
    } else {
      assert (s + t)[0] == s[0] && (s + t)[1..] == s[1..] + t;
      LossAppend(s[1..], t, if s[0] == SLASH then b + 1 else 0);
    }
  }

  /** No quote of `arg` follows a backslash, given `b` backslashes before it. */
  predicate SoundAfter(arg: string, b: nat) {
    !SlashBeforeQuote(arg) && !(b > 0 && arg != "" && arg[0] == QUOTE)
  }

  lemma SoundAfterRest(arg: string, b: nat)
    requires arg != ""
    ensures SoundAfter(arg, b) <==>
            (arg[0] == QUOTE ==> b == 0) && SoundAfter(arg[1..], if arg[0] == SLASH then b + 1 else 0)
  {
    var rest := arg[1..];
    if SlashBeforeQuote(rest) {
      var i :| 0 <= i && i + 1 < |rest| && rest[i] == SLASH && rest[i + 1] == QUOTE;
      assert arg[i + 1] == SLASH && arg[i + 1 + 1] == QUOTE;
    }
    if SlashBeforeQuote(arg) {
      var i :| 0 <= i && i + 1 < |arg| && arg[i] == SLASH && arg[i + 1] == QUOTE;
      if i > 0 {
        assert rest[i - 1] == SLASH && rest[i - 1 + 1] == QUOTE;
      }
    }
    if arg[0] == SLASH && rest != "" && rest[0] == QUOTE {
      assert arg[0] == SLASH && arg[0 + 1] == QUOTE;
    }
  }

  lemma {:induction false} SubstitutedLoss(arg: string, b: nat)
    ensures Pending(Substituted(arg), b) == Pending(arg, b)
    ensures Loss(Substituted(arg), b) == 0 <==> SoundAfter(arg, b)
    ensures Loss(Substituted(arg), b) == 0 ==> Literals(Substituted(arg), b) == Occurs(arg, QUOTE)
    decreases |arg|
  {
    if arg != "" {
      var rest, b' := arg[1..], if arg[0] == SLASH then b + 1 else 0;
      SubstitutedLoss(rest, b');
      SoundAfterRest(arg, b);
      assert arg == [arg[0]] + rest;
      OccursAppend([arg[0]], rest, QUOTE);
      var s := Substituted(arg);
      if arg[0] == QUOTE {
        assert s[0] == SLASH && s[1..] == [QUOTE] + Substituted(rest);
        assert s[1..][1..] == Substituted(rest);
      } else {
        assert s[0] == arg[0] && s[1..] == Substituted(rest);
      }
    }
  }

  lemma {:induction false} SubstitutedSlashes(arg: string)
    ensures Occurs(Substituted(arg), SLASH) == Occurs(arg, SLASH) + Occurs(arg, QUOTE)
  {
    if arg != "" {
      var rest := arg[1..];
      SubstitutedSlashes(rest);
      assert arg == [arg[0]] + rest;
      OccursAppend([arg[0]], rest, SLASH);
      OccursAppend([arg[0]], rest, QUOTE);
      OccursAppend(if arg[0] == QUOTE then [SLASH, QUOTE] else [arg[0]], Substituted(rest), SLASH);
    }
  }

  lemma {:induction false} PendingEnd(arg: string, b: nat)
    requires arg != ""
    ensures Pending(arg, b) == 0 <==> arg[|arg| - 1] != SLASH
    decreases |arg|
  {
    var b' := if arg[0] == SLASH then b + 1 else 0;
    if |arg| > 1 {
      PendingEnd(arg[1..], b');
    } else {
      assert Pending(arg[1..], b') == b';
    }
  }

  lemma EscapedLoss(arg: string)
    ensures Occurs(Escaped(arg), SLASH) == Occurs(arg, SLASH) + Occurs(arg, QUOTE)
    ensures Loss(Escaped(arg), 0) == 0 ==> Literals(Escaped(arg), 0) >= Occurs(arg, QUOTE)
    ensures Loss(Escaped(arg), 0) == 0 && Literals(Escaped(arg), 0) == Occurs(arg, QUOTE) ==> Sound(arg)
  {
    hide Occurs;
    hide Loss;
    hide Literals;
    hide Pending;
    hide Substituted;
    SubstitutedLoss(arg, 0);
    SubstitutedSlashes(arg);
    if Special(arg) {
      PendingEnd(arg, 0);
      QuotedLoss(Substituted(arg));
    }
  }

  /** Surrounding quotes cost the backslashes before the closing one. */
  lemma QuotedLoss(s: string)
    ensures var q, b := [QUOTE] + s + [QUOTE], Pending(s, 0);
            && Occurs(q, SLASH) == Occurs(s, SLASH) && Loss(q, 0) == Loss(s, 0) + Cost(b)
            && Literals(q, 0) == Literals(s, 0) + b % 2
  {
    OccursAppend([QUOTE], s, SLASH);
    OccursAppend([QUOTE] + s, [QUOTE], SLASH);
    LossAppend([QUOTE] + s, [QUOTE], 0);
    LossAppend([QUOTE], s, 0);
    PendingAppend([QUOTE], s, 0);
    LossQuote(0);
    LossQuote(Pending(s, 0));
  }

  lemma LossQuote(b: nat)
    ensures Loss([QUOTE], b) == Cost(b) && Literals([QUOTE], b) == b % 2 && Pending([QUOTE], b) == 0
  {
    assert [QUOTE][1..] == "";
  }

  lemma {:induction false} PendingAppend(s: string, t: string, b: nat)
    ensures Pending(s + t, b) == Pending(t, Pending(s, b))
    decreases |s|
  {
    if s == "" {
      assert s + t == t;
    } else {
      assert (s + t)[0] == s[0] && (s + t)[1..] == s[1..] + t;
      PendingAppend(s[1..], t, if s[0] == SLASH then b + 1 else 0);
    }
  }

  /** The separating space decides pending backslashes: the two sides are scanned independently. */
  lemma SpaceSeparates(s: string, t: string)
    ensures Occurs(s + [SPACE] + t, SLASH) == Occurs(s, SLASH) + Occurs(t, SLASH)
    ensures Loss(s + [SPACE] + t, 0) == Loss(s, 0) + Loss(t, 0)
    ensures Literals(s + [SPACE] + t, 0) == Literals(s, 0) + Literals(t, 0)
  {
    OccursAppend(s + [SPACE], t, SLASH);
    OccursAppend(s, [SPACE], SLASH);
    assert s + [SPACE] + t == s + ([SPACE] + t);
    LossAppend(s, [SPACE] + t, 0);
    assert ([SPACE] + t)[1..] == t;
  }

  ghost predicate AllSound(args: seq<string>) {
    forall i | 0 <= i < |args| :: Sound(args[i])
  }

  /** A printed line whose scan loses nothing has at least as many literal quotes as its arguments. */
  ghost predicate Counted(line: string, args: seq<string>) {
    && Occurs(line, SLASH) == Total(args, SLASH) + Total(args, QUOTE)
    && (Loss(line, 0) == 0 ==> Literals(line, 0) >= Total(args, QUOTE))
    && (Loss(line, 0) == 0 && Literals(line, 0) == Total(args, QUOTE) ==> AllSound(args))
  }

  lemma CountedOne(arg: string)
    ensures Counted(Escaped(arg), [arg])
  {
    EscapedLoss(arg);
    TotalExtend([], arg, SLASH);
    TotalExtend([], arg, QUOTE);
    assert [] + [arg] == [arg];
  }

  lemma CountedMore(arg: string, line: string, args: seq<string>)
    requires Counted(line, args)
    ensures Counted(Escaped(arg) + [SPACE] + line, [arg] + args)
  {
    EscapedLoss(arg);
    SpaceSeparates(Escaped(arg), line);
    TotalPrepend(arg, args, SLASH);
    TotalPrepend(arg, args, QUOTE);
  }

  lemma {:induction false} MakeCounts(args: seq<string>)
    ensures Counted(MakeCommandLine(args), args)
    decreases |args|
  {
    if |args| == 1 {
      CountedOne(args[0]);
      assert args == [args[0]];
    } else if |args| > 1 {
      MakeCounts(args[1..]);
      CountedMore(args[0], MakeCommandLine(args[1..]), args[1..]);
      assert args == [args[0]] + args[1..];
    }
  }

  lemma ComesBackOnlyIfSound(args: seq<string>)
    requires SplitTail(MakeCommandLine(args)) == args
    ensures AllSound(args)
  {
    SplitConserves(MakeCommandLine(args));
    MakeCounts(args);
  }

  // ---------------------------------------------------------------------------------------------
  // Splitting a line of sound arguments

  lemma {:induction false} QuotedFeed(st: Scan, arg: string)
    requires st.open && st.quoted && SoundAfter(arg, st.slashes)
    ensures var r := Feed(st, Substituted(arg));
            && r.done == st.done && r.open && r.quoted
            && r.slashes == Pending(arg, st.slashes) && Text(r) == Text(st) + arg
    decreases |arg|
  {
    if arg == "" {
      assert Text(st) + arg == Text(st);
    } else {
      var rest, s := arg[1..], Substituted(arg);
      SoundAfterRest(arg, st.slashes);
      assert arg == [arg[0]] + rest;
      if arg[0] == QUOTE {
        assert s[0] == SLASH && s[1..] == [QUOTE] + Substituted(rest);
        assert s[1..][1..] == Substituted(rest);
        var st' := Step(Step(st, SLASH), QUOTE);
        assert Text(st') == Text(st) + [QUOTE];
        QuotedFeed(st', rest);
        assert Text(st) + [QUOTE] + rest == Text(st) + arg;
      } else {
        assert s[0] == arg[0] && s[1..] == Substituted(rest);
        var st' := Step(st, arg[0]);
        assert Text(st') == Text(st) + [arg[0]];
        QuotedFeed(st', rest);
        assert Text(st) + [arg[0]] + rest == Text(st) + arg;
      }
    }
  }

  /** Outside quotes no tab survives. */
  lemma {:induction false} TabsVanish(st: Scan, arg: string)
    requires Shape(st) && !st.quoted && QUOTE !in arg
    ensures var r := Feed(st, arg); Shape(r) && !r.quoted && Held(r, TAB) == Held(st, TAB)
    decreases |arg|
  {
    if arg != "" {
      TabStep(st, arg[0]);
      TabsVanish(Step(st, arg[0]), arg[1..]);
    }
  }

  lemma TabStep(st: Scan, ch: char)
    requires Shape(st) && !st.quoted && ch != QUOTE
    ensures Shape(Step(st, ch)) && !Step(st, ch).quoted && Held(Step(st, ch), TAB) == Held(st, TAB)
  {
    hide Slashes;
    hide Occurs;
    hide Total;
    OccursOne(ch, TAB);
    if White(ch) {
      HeldClose(st, TAB);
    } else if ch != SLASH {
      OccursSlashes(st.slashes, TAB);
      OccursAppend(st.text, Slashes(st.slashes), TAB);
      OccursAppend(Text(st), [ch], TAB);
    }
  }

  lemma OccursOne(a: char, ch: char)
    ensures Occurs([a], ch) == (if a == ch then 1 else 0) && Occurs("", ch) == 0
  {
  }

  lemma {:induction false} PlainFeed(st: Scan, arg: string)
    requires !st.quoted && QUOTE !in arg && SPACE !in arg && TAB !in arg
    ensures var r := Feed(st, arg);
            r.done == st.done && r.open == (st.open || arg != "") && Text(r) == Text(st) + arg
    decreases |arg|
  {
    if arg == "" {
      assert Text(st) + arg == Text(st);
    } else {
      var ch, rest := arg[0], arg[1..];
      var st' := Step(st, ch);
      assert ch in arg;
      assert Text(st') == Text(st) + [ch];
      PlainFeed(st', rest);
      assert Text(st) + [ch] + rest == Text(st) + arg;
    }
  }

  /** A sound special argument, printed in quotes, is read back as itself. */
  lemma SpecialFeed(done: seq<string>, arg: string)
    requires Special(arg) && Sound(arg)
    ensures var r := Feed(Between(done), Escaped(arg));
            Shape(r) && !r.quoted && Close(r) == done + [arg]
  {
    var s := Substituted(arg);
    var st := Scan(done, true, "", true, 0);
    QuotedFeed(st, arg);
    PendingEnd(arg, 0);
    var m := Feed(st, s);
    FeedAppend(Between(done), [QUOTE] + s, [QUOTE]);
    FeedAppend(Between(done), [QUOTE], s);
    FeedOne(Between(done), QUOTE);
    FeedOne(m, QUOTE);
    assert Text(st) + arg == arg;
    assert Step(m, QUOTE) == m.(text := m.text + "", quoted := false);
    assert m.text + "" == m.text == Text(m);
  }

  lemma FeedOne(st: Scan, ch: char)
    ensures Feed(st, [ch]) == Step(st, ch)
  {
    assert [ch][1..] == "";
    assert Feed(Step(st, ch), "") == Step(st, ch);
  }

  /** How a sound argument is read back: tabs outside quotes and empty arguments are lost. */
  lemma ArgFeed(done: seq<string>, arg: string)
    requires Sound(arg)
    ensures var r := Feed(Between(done), Escaped(arg));
            && Shape(r) && !r.quoted
            && Total(Close(r), TAB) == Total(done, TAB) + (if Special(arg) then Occurs(arg, TAB) else 0)
            && (TAB !in arg || Special(arg) ==> Close(r) == if arg == "" then done else done + [arg])
  {
    var st := Between(done);
    if Special(arg) {
      SpecialFeed(done, arg);
      TotalExtend(done, arg, TAB);
    } else {
      SubstitutedPlain(arg);
      TabsVanish(st, arg);
      HeldClose(Feed(st, arg), TAB);
      if TAB !in arg {
        PlainFeed(st, arg);
        assert Text(st) + arg == arg;
      }
    }
  }

  function KeptTabs(args: seq<string>): nat {
    if args == [] then 0 else (if Special(args[0]) then Occurs(args[0], TAB) else 0) + KeptTabs(args[1..])
  }

  function NonEmpty(args: seq<string>): seq<string> {
    if args == [] then [] else (if args[0] == "" then [] else [args[0]]) + NonEmpty(args[1..])
  }

  ghost predicate TabsQuoted(args: seq<string>) {
    forall i | 0 <= i < |args| :: TAB in args[i] ==> Special(args[i])
  }

  lemma SpaceFeed(st: Scan, line: string)
    requires !st.quoted
    ensures Feed(st, [SPACE] + line) == Feed(Between(Close(st)), line)
  {
    FeedAppend(st, [SPACE], line);
    FeedOne(st, SPACE);
  }

  lemma FeedMore(done: seq<string>, s: string, line: string)
    requires !Feed(Between(done), s).quoted
    ensures Feed(Between(done), s + [SPACE] + line) == Feed(Between(Close(Feed(Between(done), s))), line)
  {
    assert s + [SPACE] + line == s + ([SPACE] + line);
    FeedAppend(Between(done), s, [SPACE] + line);
    SpaceFeed(Feed(Between(done), s), line);
  }

  /** `r` is `done` followed by what is left of `args`. */
  ghost predicate ReadBack(r: seq<string>, done: seq<string>, args: seq<string>) {
    && Total(r, TAB) == Total(done, TAB) + KeptTabs(args)
    && (TabsQuoted(args) ==> r == done + NonEmpty(args))
  }

  lemma ReadBackMore(r: seq<string>, done: seq<string>, mid: seq<string>, args: seq<string>)
    requires args != [] && ReadBack(r, mid, args[1..])
    requires Total(mid, TAB) == Total(done, TAB) + (if Special(args[0]) then Occurs(args[0], TAB) else 0)
    requires TAB !in args[0] || Special(args[0]) ==> mid == if args[0] == "" then done else done + [args[0]]
    ensures ReadBack(r, done, args)
  {
    hide Total;
    hide Special;
    hide TabsQuoted;
    if TabsQuoted(args) {
      TabsQuotedTail(args);
      Append(done, args[0], NonEmpty(args[1..]));
    }
  }

  lemma Append(done: seq<string>, arg: string, rest: seq<string>)
    ensures done + [arg] + rest == done + ([arg] + rest) && done + ([] + rest) == done + rest
  {
  }

  lemma TabsQuotedTail(args: seq<string>)
    requires args != [] && TabsQuoted(args)
    ensures TabsQuoted(args[1..]) && (TAB in args[0] ==> Special(args[0]))
  {
    forall i | 0 <= i < |args[1..]| ensures TAB in args[1..][i] ==> Special(args[1..][i]) {
      assert args[1..][i] == args[i + 1];
    }
  }

  lemma {:induction false} MakeFeed(done: seq<string>, args: seq<string>)
    requires AllSound(args)
    ensures ReadBack(Close(Feed(Between(done), MakeCommandLine(args))), done, args)
    decreases |args|
  {
    if args == [] {
      assert done + [] == done;
    } else {
      var a, rest := args[0], args[1..];
      ArgFeed(done, a);
      var mid := Close(Feed(Between(done), Escaped(a)));
      if rest == [] {
        assert mid + [] == mid;
        assert ReadBack(mid, mid, rest);
        ReadBackMore(mid, done, mid, args);
      } else {
        FeedMore(done, Escaped(a), MakeCommandLine(rest));
        MakeFeed(mid, rest);
        ReadBackMore(Close(Feed(Between(mid), MakeCommandLine(rest))), done, mid, args);
      }
    }
  }

  lemma {:induction false} TabsAccounted(args: seq<string>)
    ensures KeptTabs(args) <= Total(args, TAB)
    ensures KeptTabs(args) == Total(args, TAB) <==> TabsQuoted(args)
    decreases |args|
  {
    if args != [] {
      TabsAccounted(args[1..]);
      assert args == [args[0]] + args[1..];
      TotalPrepend(args[0], args[1..], TAB);
    }
  }

  lemma {:induction false} NonEmptyAccounted(args: seq<string>)
    ensures |NonEmpty(args)| <= |args|
    ensures |NonEmpty(args)| == |args| ==> forall i | 0 <= i < |args| :: args[i] != ""
    ensures (forall i | 0 <= i < |args| :: args[i] != "") ==> NonEmpty(args) == args
    decreases |args|
  {
    if args != [] {
      NonEmptyAccounted(args[1..]);
      assert args == [args[0]] + args[1..];
    }
  }

  ghost predicate AllFaithful(args: seq<string>) {
    forall i | 0 <= i < |args| :: Faithful(args[i])
  }

  /** Printing and splitting by the documented tail rules gives the list back exactly if all arguments are faithful. */
  lemma TailRoundTrip(args: seq<string>)
    ensures SplitTail(MakeCommandLine(args)) == args <==> AllFaithful(args)
  {
    if SplitTail(MakeCommandLine(args)) == args {
      ComesBackOnlyIfSound(args);
    }
    if AllSound(args) {
      MakeFeed([], args);
      TabsAccounted(args);
      NonEmptyAccounted(args);
      assert [] + NonEmpty(args) == NonEmpty(args);
    }
  }

  // ---------------------------------------------------------------------------------------------
  // The whole line, program name included

  lemma {:induction false} NameEndAt(s: string, t: string, quoted: bool)
    requires forall i | 0 <= i < |s| :: if quoted then s[i] != QUOTE else !White(s[i])
    requires t != "" ==> if quoted then t[0] == QUOTE else White(t[0])
    ensures NameEnd(s + t, quoted) == |s|
  {
    if s == "" {
      assert s + t == t;
    } else {
      assert (s + t)[0] == s[0] && (s + t)[1..] == s[1..] + t;
      NameEndAt(s[1..], t, quoted);
    }
  }

  /** The rest of a command line after its first printed argument. */
  function Rest(args: seq<string>): string {
    if |args| <= 1 then "" else [SPACE] + MakeCommandLine(args[1..])
  }

  lemma RestSplits(args: seq<string>)
    requires args != []
    ensures MakeCommandLine(args) == Escaped(args[0]) + Rest(args)
    ensures SplitTail(Rest(args)) == SplitTail(MakeCommandLine(args[1..]))
  {
    if |args| > 1 {
      SpaceFeed(Between([]), MakeCommandLine(args[1..]));
    }
  }

  /** An argument that can stand first: program names know no escapes. */
  predicate FaithfulName(arg: string) {
    QUOTE !in arg && (TAB in arg ==> SPACE in arg)
  }

  /** A sequence of quote-free text and a first quote. */
  lemma {:induction false} FirstQuote(arg: string) returns (p: string, q: string)
    requires QUOTE in arg
    ensures arg == p + [QUOTE] + q && QUOTE !in p
  {
    if arg[0] == QUOTE {
      p, q := "", arg[1..];
    } else {
      assert arg == [arg[0]] + arg[1..];
      p, q := FirstQuote(arg[1..]);
      p := [arg[0]] + p;
    }
  }

  lemma {:induction false} SubstitutedAppend(s: string, t: string)
    ensures Substituted(s + t) == Substituted(s) + Substituted(t)
  {
    if s == "" {
      assert s + t == t;
    } else {
      assert (s + t)[0] == s[0] && (s + t)[1..] == s[1..] + t;
      SubstitutedAppend(s[1..], t);
    }
  }

  /** A program name in quotes ends at the next quote, whatever follows it, or with the line. */
  lemma QuotedName(name: string, tail: string, executable: string)
    requires QUOTE !in name && tail != "" && tail[0] == QUOTE
    ensures ToArgv([QUOTE] + name + tail, executable) == [name] + SplitTail(tail[1..])
  {
    var line := [QUOTE] + name + tail;
    assert line[1..] == name + tail;
    NameEndAt(name, tail, true);
    assert line[1..|name| + 1] == name && line[|name| + 2..] == tail[1..];
  }

  lemma OpenName(name: string, executable: string)
    requires QUOTE !in name
    ensures ToArgv([QUOTE] + name, executable) == [name]
  {
    var line := [QUOTE] + name;
    assert line[1..] == name && name + "" == name;
    NameEndAt(name, "", true);
    assert line[1..|name| + 1] == name;
    assert Feed(Between([]), "") == Between([]);
  }

  /** Any other one ends at the first white space, so it is empty if the line begins with white space. */
  lemma PlainName(name: string, tail: string, executable: string)
    requires name + tail != "" && (name + tail)[0] != QUOTE
    requires forall i | 0 <= i < |name| :: !White(name[i])
    requires tail != "" ==> White(tail[0])
    ensures ToArgv(name + tail, executable) == [name] + SplitTail(tail)
  {
    var line := name + tail;
    NameEndAt(name, tail, false);
    assert line[..|name|] == name && line[|name|..] == tail;
  }

  /** What `CommandLineToArgvW` takes for the program name, when the first printed argument is not empty. */
  lemma NameRead(args: seq<string>, executable: string)
    requires args != [] && args[0] != ""
    ensures var r := ToArgv(MakeCommandLine(args), executable);
            if FaithfulName(args[0]) then r == [args[0]] + SplitTail(MakeCommandLine(args[1..]))
            else |r| > 0 && r[0] != args[0]
  {
    hide SplitTail;
    var a := args[0];
    RestSplits(args);
    if QUOTE in a {
      QuotedNameRead(args, executable);
    } else {
      SubstitutedPlain(a);
      if Special(a) {
        SpacedNameRead(args, executable);
      } else {
        PlainNameRead(args, executable);
      }
    }
  }

  lemma SpacedNameRead(args: seq<string>, executable: string)
    requires args != [] && QUOTE !in args[0] && Special(args[0])
    ensures var tail := MakeCommandLine(args[1..]);
            ToArgv(MakeCommandLine(args), executable) == [args[0]] + SplitTail(tail)
  {
    hide MakeCommandLine;
    hide ToArgv;
    hide SplitTail;
    hide Rest;
    var a, tail := args[0], [QUOTE] + Rest(args);
    RestSplits(args);
    SubstitutedPlain(a);
    assert Escaped(a) == [QUOTE] + a + [QUOTE];
    Requote(a, Rest(args));
    QuotedName(a, tail, executable);
  }

  lemma Requote(name: string, rest: string)
    ensures [QUOTE] + name + [QUOTE] + rest == [QUOTE] + name + ([QUOTE] + rest)
    ensures ([QUOTE] + rest)[1..] == rest
  {
  }

  lemma PlainNameRead(args: seq<string>, executable: string)
    requires args != [] && args[0] != "" && !Special(args[0])
    ensures var r := ToArgv(args[0] + Rest(args), executable);
            if TAB in args[0] then |r| > 0 && r[0] != args[0] else r == [args[0]] + SplitTail(Rest(args))
  {
    PlainNameCut(args[0], Rest(args), executable);
    assert Rest(args) != "" ==> Rest(args)[0] == SPACE;
  }

  /** A name without spaces and quotes ends at its first tab. */
  lemma PlainNameCut(a: string, rest: string, executable: string)
    requires a != "" && !Special(a) && (rest != "" ==> White(rest[0]))
    ensures var r := ToArgv(a + rest, executable);
            if TAB in a then |r| > 0 && r[0] != a else r == [a] + SplitTail(rest)
  {
    hide ToArgv;
    hide SplitTail;
    assert a[0] in a;
    if TAB in a {
      var i := FirstTab(a);
      var tail := a[i..] + rest;
      assert a + rest == a[..i] + tail;
      PlainName(a[..i], tail, executable);
    } else {
      forall i | 0 <= i < |a| ensures !White(a[i]) {
        assert a[i] in a;
      }
      PlainName(a, rest, executable);
    }
  }

  lemma {:induction false} FirstTab(arg: string) returns (i: nat)
    requires TAB in arg && SPACE !in arg
    ensures i < |arg| && arg[i] == TAB && forall k | 0 <= k < i :: !White(arg[k])
  {
    if arg[0] == TAB {
      i := 0;
    } else {
      assert arg == [arg[0]] + arg[1..];
      assert arg[0] in arg;
      i := FirstTab(arg[1..]);
      forall k | 0 <= k < i + 1 ensures !White(arg[k]) {
        if k > 0 {
          assert arg[k] == arg[1..][k - 1];
        }
      }
      i := i + 1;
    }
  }

  /** A name with a quote is cut at it, and the escaping backslash is left behind. */
  lemma QuotedNameRead(args: seq<string>, executable: string)
    requires args != [] && QUOTE in args[0]
    ensures var r := ToArgv(MakeCommandLine(args), executable); |r| > 0 && r[0] != args[0]
  {
    RestSplits(args);
    var a := args[0];
    var p, q := FirstQuote(a);
    QuoteSubstituted(p, q);
    var name, tail := p + [SLASH], [QUOTE] + Substituted(q) + [QUOTE] + Rest(args);
    Regroup(p, Substituted(q), Rest(args));
    QuotedName(name, tail, executable);
    assert name[|p|] == SLASH && a[|p|] == QUOTE;
  }

  lemma Regroup(p: string, q: string, rest: string)
    ensures [QUOTE] + (p + [SLASH, QUOTE] + q) + [QUOTE] + rest
         == [QUOTE] + (p + [SLASH]) + ([QUOTE] + q + [QUOTE] + rest)
  {
    assert p + [SLASH, QUOTE] + q == (p + [SLASH]) + ([QUOTE] + q);
  }

  lemma QuoteSubstituted(p: string, q: string)
    requires QUOTE !in p
    ensures Substituted(p + [QUOTE] + q) == p + [SLASH, QUOTE] + Substituted(q)
  {
    assert p + [QUOTE] + q == p + ([QUOTE] + q);
    SubstitutedAppend(p, [QUOTE] + q);
    SubstitutedPlain(p);
    assert ([QUOTE] + q)[1..] == q;
  }

  /** Each argument after the first must be faithful; the first must be able to stand as a program name. */
  ghost predicate LineFaithful(args: seq<string>, executable: string) {
    && args != []
    && FaithfulName(args[0])
    && AllFaithful(args[1..])
    && (args == [""] ==> executable == "")
  }

  /** The exact round trip through the whole of `parse_command_line`, with its own rule for the first argument. */
  lemma LineRoundTrip(args: seq<string>, executable: string)
    ensures ToArgv(MakeCommandLine(args), executable) == args <==> LineFaithful(args, executable)
  {
    if args != [] {
      var a, line, rest := args[0], MakeCommandLine(args), args[1..];
      assert args == [a] + rest;
      TailRoundTrip(rest);
      if a != "" {
        NameRead(args, executable);
      } else if rest != [] {
        RestSplits(args);
        assert line == Rest(args);
        NameEndAt("", line, false);
        assert "" + line == line;
        assert line[..0] == "" && line[0..] == line;
      }
    }
  }
}
