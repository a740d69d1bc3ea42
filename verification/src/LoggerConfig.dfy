/** The checks a logger configuration goes through, and which sizes they accept. */
module LoggerConfig {
  import opened FileSize
  import opened Wrappers

  const MIN_SIZE: nat := 1024
  const MAX_SIZE: nat := 1024 * 1024 * 1024 * 2
  const MIN_FILES: nat := 1
  const MAX_FILES: nat := 32

  datatype Logger = Logger(basePath: string, maxSize: Option<string>, maxFiles: Option<nat>)

  const DEFAULT_SIZE := "50 MiB"
  const DEFAULT_FILES: nat := 5
  const DEFAULT_LOGGER := Logger("logs/svchostify.log", Some(DEFAULT_SIZE), Some(DEFAULT_FILES))

  datatype Context = Context(basePath: string, maxSize: nat, maxFiles: nat)

  datatype Problem =
    | EmptyBasePath
    | NoDirectory
    | InvalidSize(shown: string)
    | SizeOutOfRange(shown: string, lower: string, upper: string)
    | FilesOutOfRange(files: nat)

  /** `Unset`: a message would be built from an option the configuration does not have. */
  datatype Result = Accepted(context: Context) | Rejected(problem: Problem) | Unset | UndefinedSize

  function ValueOr<T>(o: Option<T>, default: T): T {
    match o
    case None => default
    case Some(v) => v
  }

  /** Every message about an option shows the configured value, not the default. */
  function Report<T>(o: Option<T>, problem: T -> Problem): Result {
    match o
    case None => Unset
    case Some(v) => Rejected(problem(v))
  }

  predicate SizeInRange(size: nat) {
    MIN_SIZE <= size <= MAX_SIZE
  }

  predicate FilesInRange(files: nat) {
    MIN_FILES <= files <= MAX_FILES
  }

  /** `directoryFails`: the base path has a parent path, and that directory cannot be created. */
  function ParseLogger(configured: Option<Logger>, directoryFails: bool): Result {
    var logger := ValueOr(configured, DEFAULT_LOGGER);
    if logger.basePath == "" then Rejected(EmptyBasePath)
    else if directoryFails then Rejected(NoDirectory)
    else CheckLimits(logger, Parse(ValueOr(logger.maxSize, DEFAULT_SIZE)))
  }

  /** The checks that follow once the size has been parsed. */
  function CheckLimits(logger: Logger, parsed: Outcome): Result {
    match parsed
    case Undefined => UndefinedSize
    case Nothing => Report(logger.maxSize, text => InvalidSize(text))
    case Parsed(size) =>
      if !SizeInRange(size) then
        Report(logger.maxSize, text => SizeOutOfRange(text, Truncate(MIN_SIZE), Truncate(MAX_SIZE)))
      else
        var files := ValueOr(logger.maxFiles, DEFAULT_FILES);
        if !FilesInRange(files) then Report(logger.maxFiles, n => FilesOutOfRange(n))
        else Accepted(Context(logger.basePath, size, files))
  }

  lemma DefaultSizeIsFine()
    ensures Parse(DEFAULT_SIZE) == Parsed(50 * 1024 * 1024)
  {
    hide Parse;
    RoundTrip(50, 2);
    assert Decimal(5) == "5";
    assert Decimal(50) == "50";
    assert Decimal(50) + " " + Name(2) == DEFAULT_SIZE;
  }

  /** No message ever needs an option that is missing, because the defaults pass their own checks. */
  lemma NoOptionIsMissing(configured: Option<Logger>, directoryFails: bool)
    ensures ParseLogger(configured, directoryFails) != Unset
  {
    DefaultSizeIsFine();
    var logger := ValueOr(configured, DEFAULT_LOGGER);
    LimitsAreSet(logger, Parse(ValueOr(logger.maxSize, DEFAULT_SIZE)));
  }

  lemma LimitsAreSet(logger: Logger, parsed: Outcome)
    requires logger.maxSize.None? ==> parsed.Parsed? && SizeInRange(parsed.size)
    ensures CheckLimits(logger, parsed) != Unset
  {
  }

  /** Without a logger, or without a size and a count, the defaults apply, and they are accepted. */
  lemma DefaultsAreAccepted(basePath: string)
    ensures ParseLogger(None, false) == Accepted(Context("logs/svchostify.log", 52428800, 5))
    ensures basePath != "" ==>
              ParseLogger(Some(Logger(basePath, None, None)), false) == Accepted(Context(basePath, 52428800, 5))
  {
    hide Parse;
    DefaultSizeIsFine();
  }

  /** Both bounds in a size message are shown as "0 TiB", where "1 KiB" and "2 GiB" are meant. */
  lemma BoundsAreNotShown()
    ensures Truncate(MIN_SIZE) == Truncate(MAX_SIZE) == "0 TiB"
    ensures IntendedTruncate(MIN_SIZE) == "1 KiB" && IntendedTruncate(MAX_SIZE) == "2 GiB"
  {
    hide Truncate;
    hide IntendedTruncate;
    TruncateSmall(MIN_SIZE);
    TruncateSmall(MAX_SIZE);
    WholeUnitsAreShown(1, 1);
    WholeUnitsAreShown(2, 3);
    assert Decimal(1) == "1" && Decimal(2) == "2";
    assert Printed(1, 1) == "1 KiB" && Printed(2, 3) == "2 GiB";
  }

  // ---------------------------------------------------------------------------------------------
  // Which sizes pass

  /** The size check, on what was parsed. */
  predicate Passes(parsed: Outcome) {
    parsed.Parsed? && SizeInRange(parsed.size)
  }

  /** What the check is for. */
  predicate ShouldPass(k: nat, u: Unit) {
    SizeInRange(k * Ratio(u))
  }

  /** A product that wraps around loses whole multiples of `period`, where `period` of the unit make 2^64. */
  lemma Wrapped(k: nat, r: nat, period: nat)
    requires r > 0 && period > 0 && r * period == WORD
    ensures k * r % WORD == (k % period) * r
  {
    var turns, rest := k / period, k % period;
    assert k == turns * period + rest;
    assert k * r == turns * WORD + rest * r by {
      assert turns * period * r == turns * (r * period);
    }
    Monotone(rest + 1, period, r);
    Quotient(k * r, WORD, turns);
  }

  /** The numbers of each unit that are accepted. */
  predicate InTable(k: nat, u: Unit) {
    match u
    case 0 => 1024 <= k <= 0x8000_0000
    case 1 => 1 <= k % 0x40_0000_0000_0000 <= 0x20_0000
    case 2 => 1 <= k % 0x1000_0000_0000 <= 0x800
    case 3 => 1 <= k % 0x4_0000_0000 <= 2
    case _ => false
  }

  lemma WrappedInTable(k: nat, u: Unit)
    requires k < WORD
    ensures SizeInRange(k * Ratio(u) % WORD) <==> InTable(k, u)
  {
    match u
    case 0 => Quotient(k, WORD, 0);
    case 1 => Wrapped(k, Ratio(1), 0x40_0000_0000_0000);
    case 2 => Wrapped(k, Ratio(2), 0x1000_0000_0000);
    case 3 => Wrapped(k, Ratio(3), 0x4_0000_0000);
    case _ => Wrapped(k, Ratio(4), 0x100_0000);
  }

  /** As written, with the product taken in 64 bits: exactly which numbers of each unit are accepted. */
  lemma AcceptedSizes(k: nat, u: Unit)
    requires k < WORD
    ensures Passes(Parse(Printed(k, u))) <==> InTable(k, u)
  {
    ParseOfPrintedIs(k, u);
    WrappedInTable(k, u);
  }

  /**
   What becomes of a configuration whose size is a number and a unit. It is accepted exactly if its base path is not
   empty, the directory can be made, the number is in the table and the count of files is from 1 to 32, and the size is
   then the product in 64 bits. Otherwise the first of these that fails is reported.
   */
  lemma AcceptedIff(logger: Logger, directoryFails: bool, k: nat, u: Unit)
    requires logger.maxSize == Some(Printed(k, u)) && k < WORD
    ensures var r, files := ParseLogger(Some(logger), directoryFails), ValueOr(logger.maxFiles, 5);
            if logger.basePath == "" then r == Rejected(EmptyBasePath)
            else if directoryFails then r == Rejected(NoDirectory)
            else if !InTable(k, u) then r == Rejected(SizeOutOfRange(Printed(k, u), "0 TiB", "0 TiB"))
            else if !(1 <= files <= 32) then r == Rejected(FilesOutOfRange(files))
            else r == Accepted(Context(logger.basePath, k * Ratio(u) % WORD, files))
  {
    ParseOfPrintedIs(k, u);
    WrappedInTable(k, u);
    BoundsAreNotShown();
    hide Parse;
    hide Printed;
    hide Truncate;
    hide Ratio;
    hide InTable;
    LimitsDecide(logger, k * Ratio(u) % WORD);
  }

  lemma LimitsDecide(logger: Logger, size: nat)
    requires logger.maxSize.Some?
    ensures var r, files := CheckLimits(logger, Parsed(size)), ValueOr(logger.maxFiles, 5);
            if !SizeInRange(size) then
              r == Rejected(SizeOutOfRange(logger.maxSize.value, Truncate(MIN_SIZE), Truncate(MAX_SIZE)))
            else if !(1 <= files <= 32) then r == Rejected(FilesOutOfRange(files))
            else r == Accepted(Context(logger.basePath, size, files))
  {
    hide Truncate;
  }

  /**
   The check lets through everything it is meant to, and is wrong exactly when the product overflows and what is
   left of it happens to lie in the range.
   */
  lemma PassesWronglyIff(k: nat, u: Unit)
    requires k < WORD
    ensures ShouldPass(k, u) ==> Passes(Parse(Printed(k, u)))
    ensures Passes(Parse(Printed(k, u))) && !ShouldPass(k, u)
       <==> k * Ratio(u) >= WORD && SizeInRange(k * Ratio(u) % WORD)
  {
    hide Parse;
    hide Printed;
    hide Ratio;
    hide Passes;
    ParseOfPrintedIs(k, u);
    InRangeWronglyIff(k * Ratio(u), Parse(Printed(k, u)));
  }

  lemma InRangeWronglyIff(n: nat, o: Outcome)
    requires o == Parsed(n % WORD)
    ensures SizeInRange(n) ==> Passes(o)
    ensures Passes(o) && !SizeInRange(n) <==> n >= WORD && SizeInRange(n % WORD)
  {
    if n < WORD {
      Quotient(n, WORD, 0);
    }
  }

  /** 16 EiB and 1 KiB, given in KiB, pass for 1 KiB: `turns == rest == 1`. So does every such sum up to 2 GiB. */
  lemma SixteenExbibytesPass(turns: nat, rest: nat)
    requires 1 <= turns < 1024 && 1 <= rest <= 0x20_0000
    ensures var k := turns * 0x40_0000_0000_0000 + rest;
            Passes(Parse(Printed(k, 1))) && !ShouldPass(k, 1)
  {
    var k := turns * 0x40_0000_0000_0000 + rest;
    Quotient(k, 0x40_0000_0000_0000, turns);
    AcceptedSizes(k, 1);
  }
}
