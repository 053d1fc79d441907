/** The front end of `opp exec` (src/cli.rs): its options, the proxied arguments and their limits. */
module ExecArguments {
  import opened Base
  import opened Messages
  import opened Utf8
  import opened Encoding
  import opened Durations

  type Word = seq<byte>

  const DASHES: Word := [0x2D, 0x2D]
  /** "--account" */
  const ACCOUNT: Word := [0x2D, 0x2D, 0x61, 0x63, 0x63, 0x6F, 0x75, 0x6E, 0x74]
  /** "--timeout" */
  const TIMEOUT: Word := [0x2D, 0x2D, 0x74, 0x69, 0x6D, 0x65, 0x6F, 0x75, 0x74]
  /** "--help" */
  const HELP: Word := [0x2D, 0x2D, 0x68, 0x65, 0x6C, 0x70]

  const DEFAULT_TIMEOUT: nat := 120_000_000_000

  datatype Refusal =
    | NoSeparator | AccountNeedsValue | TimeoutNeedsValue | TimeoutNotText | BadTimeout | BadOption
    | TooMany | HasNul | TooLong | OverridesAccount

  /** `account` is the selected one, `timeout` the given one. */
  datatype Options = Options(account: Option<Word>, timeout: Option<nat>)

  datatype Parsed =
    | Help
    | Refused(why: Refusal)
    | Invoke(account: Option<Word>, timeoutNanos: nat, arguments: seq<Word>)

  // ---------------------------------------------------------------- the proxied arguments

  predicate IsOverride(w: Word) { w == ACCOUNT || ACCOUNT + [0x3D] <= w }

  /** Word `k` comes before the first inner separator. */
  predicate Unseparated(words: seq<Word>, k: nat)
    requires k < |words|
  {
    DASHES !in words[..k + 1]
  }

  /** No account option before the first inner separator. */
  predicate KeepsAccount(words: seq<Word>) {
    forall k :: 0 <= k < |words| && Unseparated(words, k) ==> !IsOverride(words[k])
  }

  /** `reject_account_override`. */
  method RejectAccountOverride(words: seq<Word>) returns (ok: bool)
    ensures ok == KeepsAccount(words)
  {
    var k := 0;
    while k < |words|
      invariant k <= |words| && DASHES !in words[..k]
      invariant forall j :: 0 <= j < k ==> !IsOverride(words[j])
    {
      assert words[..k + 1] == words[..k] + [words[k]];
      if words[k] == DASHES {
        forall j | k <= j < |words| ensures !Unseparated(words, j) { assert words[..j + 1][k] == DASHES; }
        return true;
      }
      if IsOverride(words[k]) { return false; }
      k := k + 1;
    }
    ok := true;
  }

  /** Why proxied arguments are refused, in the order the source finds out. */
  function ArgumentsRefusal(words: seq<Word>): Option<Refusal> {
    if |words| > MAX_ARGUMENTS then Some(TooMany)
    else if !NoNul(words) then Some(HasNul)
    else if TotalLength(words) > MAX_ARGUMENT_BYTES then Some(TooLong)
    else if !KeepsAccount(words) then Some(OverridesAccount)
    else None
  }

  method CheckArguments(words: seq<Word>) returns (refusal: Option<Refusal>, proxied: seq<Word>)
    ensures refusal == ArgumentsRefusal(words)
    ensures refusal == None ==> proxied == words
  {
    proxied := [];
    if |words| > MAX_ARGUMENTS { return Some(TooMany), proxied; }
    var total := 0;
    var k := 0;
    while k < |words|
      invariant k <= |words| && proxied == words[..k] && total == TotalLength(proxied)
      invariant forall j :: 0 <= j < k ==> 0 !in words[j]
    {
      if 0 in words[k] { return Some(HasNul), proxied; }
      assert (proxied + [words[k]])[..k] == proxied;
      total := total + |words[k]|;
      proxied := proxied + [words[k]];
      k := k + 1;
    }
    assert words[..k] == words;
    if total > MAX_ARGUMENT_BYTES { return Some(TooLong), proxied; }
    var ok := RejectAccountOverride(proxied);
    refusal := if ok then None else Some(OverridesAccount);
  }

  // ---------------------------------------------------------------- options

  datatype OptionsRead = Good(options: Options) | Bad(why: Refusal)

  /** Reading options from left to right, each at most once. */
  ghost function ReadOptions(words: seq<Word>, so: Options, rounding: Rounding): OptionsRead
    decreases |words|
  {
    if words == [] then Good(so)
    else if words[0] == ACCOUNT && so.account.None? then
      if |words| == 1 then Bad(AccountNeedsValue)
      else ReadOptions(words[2..], so.(account := Some(words[1])), rounding)
    else if words[0] == TIMEOUT && so.timeout.None? then
      if |words| == 1 then Bad(TimeoutNeedsValue)
      else if !IsUtf8(words[1]) then Bad(TimeoutNotText)
      else
        (match Meaning(words[1], rounding)
         case None => Bad(BadTimeout)
         case Some(n) => ReadOptions(words[2..], so.(timeout := Some(n)), rounding))
    else Bad(BadOption)
  }

  /** The option loop of `parse_exec`. */
  method ParseOptions(words: seq<Word>, rounding: Rounding) returns (r: OptionsRead)
    ensures r == ReadOptions(words, Options(None, None), rounding)
  {
    var account: Option<Word> := None;
    var timeout: Option<nat> := None;
    var k := 0;
    while k < |words|
      invariant k <= |words|
      invariant ReadOptions(words, Options(None, None), rounding) ==
                ReadOptions(words[k..], Options(account, timeout), rounding)
    {
      assert |words[k..]| > 1 ==> words[k..][1] == words[k + 1] && words[k..][2..] == words[k + 2..];
      if words[k] == ACCOUNT && account.None? {
        k := k + 1;
        if k >= |words| { return Bad(AccountNeedsValue); }
        account := Some(words[k]);
      } else if words[k] == TIMEOUT && timeout.None? {
        k := k + 1;
        if k >= |words| { return Bad(TimeoutNeedsValue); }
        if !IsUtf8(words[k]) { return Bad(TimeoutNotText); }
        timeout := ParseDuration(words[k], rounding);
        if timeout.None? { return Bad(BadTimeout); }
      } else {
        return Bad(BadOption);
      }
      k := k + 1;
    }
    r := Good(Options(account, timeout));
  }

  // ---------------------------------------------------------------- the grammar

  datatype Given = AccountGiven(value: Word) | TimeoutGiven(value: Word)

  function GivenWords(given: seq<Given>): seq<Word> {
    if given == [] then []
    else [if given[0].AccountGiven? then ACCOUNT else TIMEOUT, given[0].value] + GivenWords(given[1..])
  }

  /** `given` takes the options from `so` to `end`, setting none twice. */
  ghost predicate Leads(given: seq<Given>, so: Options, end: Options, rounding: Rounding)
    decreases |given|
  {
    if given == [] then so == end
    else
      match given[0]
      case AccountGiven(value) => so.account.None? && Leads(given[1..], so.(account := Some(value)), end, rounding)
      case TimeoutGiven(value) =>
        && so.timeout.None? && IsUtf8(value) && Meaning(value, rounding).Some?
        && Leads(given[1..], so.(timeout := Meaning(value, rounding)), end, rounding)
  }

  lemma {:induction false} OptionsRoundTrip(given: seq<Given>, so: Options, end: Options, rounding: Rounding)
    requires Leads(given, so, end, rounding)
    ensures ReadOptions(GivenWords(given), so, rounding) == Good(end)
    decreases |given|
  {
    if given != [] {
      var words := GivenWords(given);
      assert words[2..] == GivenWords(given[1..]);
      match given[0]
      case AccountGiven(value) => OptionsRoundTrip(given[1..], so.(account := Some(value)), end, rounding);
      case TimeoutGiven(value) => OptionsRoundTrip(given[1..], so.(timeout := Meaning(value, rounding)), end, rounding);
    }
  }

  lemma {:induction false} OptionsCanonical(words: seq<Word>, so: Options, rounding: Rounding)
    returns (given: seq<Given>)
    requires ReadOptions(words, so, rounding).Good?
    ensures words == GivenWords(given) && Leads(given, so, ReadOptions(words, so, rounding).options, rounding)
    decreases |words|
  {
    hide IsUtf8;
    hide Meaning;
    given := [];
    if words != [] {
      var first, next;
      if words[0] == ACCOUNT {
        first, next := AccountGiven(words[1]), so.(account := Some(words[1]));
      } else {
        first, next := TimeoutGiven(words[1]), so.(timeout := Meaning(words[1], rounding));
      }
      var others := OptionsCanonical(words[2..], next, rounding);
      given := [first] + others;
      assert given[1..] == others;
      assert words == [words[0], words[1]] + words[2..];
    }
  }

  // ---------------------------------------------------------------- parse_exec

  /** What a whole argument vector means, `at` being its first separator. */
  ghost function MeaningAt(words: seq<Word>, at: nat, rounding: Rounding): Parsed
    requires at < |words|
  {
    if HELP in words[..at] then Help
    else
      match ReadOptions(words[..at], Options(None, None), rounding)
      case Bad(why) => Refused(why)
      case Good(options) =>
        match ArgumentsRefusal(words[at + 1..])
        case Some(why) => Refused(why)
        case None =>
          Invoke(options.account, if options.timeout.Some? then options.timeout.value else DEFAULT_TIMEOUT,
              words[at + 1..])
  }

  method Position(words: seq<Word>, w: Word) returns (at: Option<nat>)
    ensures match at
            case None => w !in words
            case Some(k) => k < |words| && words[k] == w && w !in words[..k]
  {
    var k := 0;
    while k < |words|
      invariant k <= |words| && w !in words[..k]
    {
      if words[k] == w { return Some(k); }
      assert words[..k + 1] == words[..k] + [words[k]];
      k := k + 1;
    }
    at := None;
  }

  /** `parse_exec`. */
  method ParseExec(words: seq<Word>, rounding: Rounding) returns (r: Parsed)
    ensures DASHES !in words ==> r == if HELP in words then Help else Refused(NoSeparator)
    ensures forall at :: 0 <= at < |words| && words[at] == DASHES && DASHES !in words[..at] ==>
              r == MeaningAt(words, at, rounding)
  {
    var separator := Position(words, DASHES);
    if separator.None? {
      var help := Position(words, HELP);
      return if help.Some? then Help else Refused(NoSeparator);
    }
    var at := separator.value;
    FirstIsUnique(words, DASHES, at);
    var help := Position(words[..at], HELP);
    if help.Some? { return Help; }
    var read := ParseOptions(words[..at], rounding);
    if read.Bad? { return Refused(read.why); }
    var refusal, proxied := CheckArguments(words[at + 1..]);
    if refusal.Some? { return Refused(refusal.value); }
    var timeout := read.options.timeout;
    r := Invoke(read.options.account, if timeout.Some? then timeout.value else DEFAULT_TIMEOUT, proxied);
  }

  lemma FirstIsUnique(words: seq<Word>, w: Word, at: nat)
    requires at < |words| && words[at] == w && w !in words[..at]
    ensures forall k :: 0 <= k < |words| && words[k] == w && w !in words[..k] ==> k == at
  {
    forall k | at < k < |words| ensures w in words[..k] { assert words[..k][at] == w; }
    forall k | 0 <= k < at ensures words[k] != w { assert words[k] == words[..at][k]; }
  }

  /** An accepted vector: options, a separator, and arguments within the limits. */
  ghost predicate Accepted(words: seq<Word>, given: seq<Given>, arguments: seq<Word>, end: Options,
                           rounding: Rounding)
  {
    && words == GivenWords(given) + [DASHES] + arguments
    && DASHES !in GivenWords(given) && HELP !in GivenWords(given)
    && Leads(given, Options(None, None), end, rounding)
    && GoodArguments(arguments) && KeepsAccount(arguments)
  }

  ghost predicate Accepts(words: seq<Word>, account: Option<Word>, timeoutNanos: nat, arguments: seq<Word>,
                          rounding: Rounding)
  {
    exists given, end ::
      && Accepted(words, given, arguments, end, rounding)
      && account == end.account
      && timeoutNanos == if end.timeout.Some? then end.timeout.value else 120_000_000_000
  }

  /** Exactly the vectors of the grammar are accepted, with their arguments in order and unchanged. */
  lemma RunsAreGrammar(words: seq<Word>, at: nat, account: Option<Word>, timeoutNanos: nat, arguments: seq<Word>,
                       rounding: Rounding)
    requires at < |words| && words[at] == DASHES && DASHES !in words[..at]
    ensures MeaningAt(words, at, rounding) == Invoke(account, timeoutNanos, arguments) <==>
            Accepts(words, account, timeoutNanos, arguments, rounding)
  {
    hide MeaningAt;
    hide Accepts;
    if MeaningAt(words, at, rounding) == Invoke(account, timeoutNanos, arguments) {
      RunsAreAccepted(words, at, account, timeoutNanos, arguments, rounding);
    }
    if Accepts(words, account, timeoutNanos, arguments, rounding) {
      AcceptedRuns(words, at, account, timeoutNanos, arguments, rounding);
    }
  }

  lemma RunsAreAccepted(words: seq<Word>, at: nat, account: Option<Word>, timeoutNanos: nat, arguments: seq<Word>,
                        rounding: Rounding)
    requires at < |words| && words[at] == DASHES && DASHES !in words[..at]
    requires MeaningAt(words, at, rounding) == Invoke(account, timeoutNanos, arguments)
    ensures Accepts(words, account, timeoutNanos, arguments, rounding)
  {
    hide ReadOptions;
    hide Leads;
    hide GivenWords;
    hide TotalLength;
    hide KeepsAccount;
    var given := OptionsCanonical(words[..at], Options(None, None), rounding);
    var end := ReadOptions(words[..at], Options(None, None), rounding).options;
    assert words == words[..at] + [DASHES] + words[at + 1..];
    assert Accepted(words, given, arguments, end, rounding);
  }

  lemma AcceptedRuns(words: seq<Word>, at: nat, account: Option<Word>, timeoutNanos: nat, arguments: seq<Word>,
                     rounding: Rounding)
    requires at < |words| && words[at] == DASHES && DASHES !in words[..at]
    requires Accepts(words, account, timeoutNanos, arguments, rounding)
    ensures MeaningAt(words, at, rounding) == Invoke(account, timeoutNanos, arguments)
  {
    hide ReadOptions;
    hide Leads;
    hide GivenWords;
    hide TotalLength;
    hide KeepsAccount;
    var given, end :|
      && Accepted(words, given, arguments, end, rounding)
      && account == end.account
      && timeoutNanos == if end.timeout.Some? then end.timeout.value else 120_000_000_000;
    var options := GivenWords(given);
    FirstIsUnique(words, DASHES, at);
    assert words[..|options|] == options && words[|options|] == DASHES && words[|options| + 1..] == arguments;
    OptionsRoundTrip(given, Options(None, None), end, rounding);
  }

  // ---------------------------------------------------------------- account overrides

  /** "--account", alone or with any value after an equals sign. */
  ghost predicate NamesAccount(w: Word) {
    || w == [0x2D, 0x2D, 0x61, 0x63, 0x63, 0x6F, 0x75, 0x6E, 0x74]
    || exists value: Word :: w == [0x2D, 0x2D, 0x61, 0x63, 0x63, 0x6F, 0x75, 0x6E, 0x74, 0x3D] + value
  }

  lemma OverrideNamesAccount(w: Word)
    ensures IsOverride(w) <==> NamesAccount(w)
  {
    var prefix: Word := ACCOUNT + [0x3D];
    assert prefix == [0x2D, 0x2D, 0x61, 0x63, 0x63, 0x6F, 0x75, 0x6E, 0x74, 0x3D];
    if prefix <= w { assert w == prefix + w[|prefix|..]; }
  }

  /** A vector whose proxied arguments name an account before their first separator is never run; one that
      names it only behind that separator is not refused for it. */
  lemma OverridesAreRefused(words: seq<Word>, at: nat, rounding: Rounding)
    requires at < |words| && words[at] == DASHES && DASHES !in words[..at]
    ensures (exists k :: at < k < |words| && NamesAccount(words[k]) && DASHES !in words[at + 1..k]) ==>
              !MeaningAt(words, at, rounding).Invoke?
    ensures (forall k :: at < k < |words| && NamesAccount(words[k]) ==> DASHES in words[at + 1..k]) ==>
              MeaningAt(words, at, rounding) != Refused(OverridesAccount)
  {
    hide IsOverride;
    hide NamesAccount;
    hide ReadOptions;
    hide TotalLength;
    var arguments := words[at + 1..];
    forall k | at < k < |words| && NamesAccount(words[k]) && DASHES !in words[at + 1..k]
      ensures !MeaningAt(words, at, rounding).Invoke?
    {
      var j := k - at - 1;
      OverrideNamesAccount(words[k]);
      NotTheSeparator(words[k]);
      assert arguments[..j] == words[at + 1..k] && arguments[..j + 1] == arguments[..j] + [words[k]];
      assert Unseparated(arguments, j);
    }
    if forall k :: at < k < |words| && NamesAccount(words[k]) ==> DASHES in words[at + 1..k] {
      forall j | 0 <= j < |arguments| && Unseparated(arguments, j) ensures !IsOverride(arguments[j]) {
        OverrideNamesAccount(arguments[j]);
        assert arguments[..j] == words[at + 1..at + 1 + j];
        assert arguments[..j + 1] == arguments[..j] + [arguments[j]];
      }
      assert KeepsAccount(arguments);
      OptionsNeverOverride(words[..at], Options(None, None), rounding);
    }
  }

  lemma NotTheSeparator(w: Word)
    requires NamesAccount(w)
    ensures w != DASHES
  {
  }

  lemma {:induction false} OptionsNeverOverride(words: seq<Word>, so: Options, rounding: Rounding)
    ensures ReadOptions(words, so, rounding) != Bad(OverridesAccount)
    decreases |words|
  {
    hide IsUtf8;
    hide Meaning;
    if |words| > 1 {
      OptionsNeverOverride(words[2..], so.(account := Some(words[1])), rounding);
      OptionsNeverOverride(words[2..], so.(timeout := Meaning(words[1], rounding)), rounding);
    }
  }
}
