/**
 * The command-line front end `ui/cli/enhanced_cli.cpp`: the argument
 * parser, the validation of the `price` command, completion, colouring,
 * tokenising of an input line, and the box-drawing table formatter.
 */
module EnhancedCli {
  import opened Numerics
  import opened OptionTypes
  import opened Text

  // ---------------------------------------------------------------------
  // ArgumentParser
  // ---------------------------------------------------------------------

  /**
   * `arg[0]`: the first character, or the terminating NUL that
   * `std::string::operator[]` yields at index `size()` of an empty string.
   */
  function Head(arg: string): char
  {
    if arg == [] then '\0' else arg[0]
  }

  /** `arg.substr(0, 2) == "--"`. */
  predicate IsLong(arg: string)
  {
    2 <= |arg| && arg[..2] == "--"
  }

  /** A short option: a dash followed by at least one character, not a long option. */
  predicate IsShort(arg: string)
  {
    !IsLong(arg) && Head(arg) == '-' && 1 < |arg|
  }

  predicate IsOption(arg: string)
  {
    IsLong(arg) || IsShort(arg)
  }

  /** The option's key: what follows its two dashes or its one dash. */
  function OptionName(arg: string): (k: string)
    requires IsOption(arg)
    ensures IsLong(arg) ==> "--" + k == arg
    ensures IsShort(arg) ==> "-" + k == arg
  {
    if IsLong(arg) then arg[2..] else arg[1..]
  }

  /** The option at `i` takes the next argument as its value unless that starts with a dash. */
  predicate TakesValue(args: seq<string>, i: nat)
  {
    i + 1 < |args| && Head(args[i + 1]) != '-'
  }

  /** What `parse` has collected: the option map and the positional arguments. */
  datatype Parsed = Parsed(options: map<string, string>, positional: seq<string>)

  /** `parse` from index `i` on, continuing from what `acc` already holds. */
  function ParseFrom(args: seq<string>, i: nat, acc: Parsed): Parsed
    requires i <= |args|
    decreases |args| - i
  {
    if i == |args| then acc
    else
      var arg := args[i];
      if IsOption(arg) then
        if TakesValue(args, i) then ParseFrom(args, i + 2, acc.(options := acc.options[OptionName(arg) := args[i + 1]]))
        else ParseFrom(args, i + 1, acc.(options := acc.options[OptionName(arg) := "true"]))
      else ParseFrom(args, i + 1, acc.(positional := acc.positional + [arg]))
  }

  /** The value stored under `key`, or `default`. */
  function OptionOr(p: Parsed, key: string, default: string): string
  {
    if key in p.options then p.options[key] else default
  }

  /** The value stored under `key` converted by `stod`, or `default` when absent or not a number. */
  function Lookup(p: Parsed, key: string, default: real, stod: string -> Option<real>): real
  {
    if key in p.options && stod(p.options[key]).Some? then stod(p.options[key]).value else default
  }

  /** `ArgumentParser`: the option map and the positional list, both empty at construction. */
  class ArgumentParser {
    var options: map<string, string>
    var positional: seq<string>

    function Snapshot(): Parsed
      reads this
    {
      Parsed(options, positional)
    }

    constructor ()
      ensures options == map[] && positional == []
    {
      options, positional := map[], [];
    }

    /** `parse`: scans the arguments once, adding to what earlier calls collected. */
    method Parse(args: seq<string>)
      modifies this
      ensures Snapshot() == ParseFrom(args, 0, old(Snapshot()))
    {
      var i := 0;
      while i < |args|
        invariant i <= |args|
        invariant ParseFrom(args, i, Snapshot()) == ParseFrom(args, 0, old(Snapshot()))
        decreases |args| - i
      {
        var arg := args[i];
        if IsLong(arg) || IsShort(arg) {
          var option := OptionName(arg);
          if i + 1 < |args| && Head(args[i + 1]) != '-' {
            options := options[option := args[i + 1]];
            i := i + 1;
          } else {
            options := options[option := "true"];
          }
        } else {
          positional := positional + [arg];
        }
        i := i + 1;
      }
    }

    /** `has_flag`: the key was given, with or without a value. */
    function HasFlag(flag: string): (b: bool)
      reads this
      ensures b <==> flag in options
    {
      flag in options
    }

    /** `get_option`: the stored value, or the default when the key is absent. */
    function GetOption(option: string, default: string): (v: string)
      reads this
      ensures option in options ==> v == options[option]
      ensures option !in options ==> v == default
    {
      OptionOr(Snapshot(), option, default)
    }

    /**
     * `get_double`: the stored value converted by `stod`, or the default
     * when the key is absent or the conversion throws (`stod` gives `None`).
     */
    function GetDouble(option: string, default: real, stod: string -> Option<real>): (v: real)
      reads this
      ensures option !in options ==> v == default
      ensures option in options && stod(options[option]).None? ==> v == default
      ensures option in options && stod(options[option]).Some? ==> v == stod(options[option]).value
    {
      Lookup(Snapshot(), option, default, stod)
    }

    /** `get_int`: as `get_double`, with `stoi`. */
    function GetInt(option: string, default: int, stoi: string -> Option<int>): (v: int)
      reads this
      ensures option !in options ==> v == default
      ensures option in options && stoi(options[option]).None? ==> v == default
      ensures option in options && stoi(options[option]).Some? ==> v == stoi(options[option]).value
    {
      if option !in options then default
      else match stoi(options[option])
        case Some(x) => x
        case None => default
    }
  }

  /**
   * Parsing a concatenation parses the second part after the first, as
   * long as the second part is empty or starts with a dash (so that an
   * option at the end of the first part takes no value from it).
   */
  lemma {:induction false} ParseAppend(a: seq<string>, b: seq<string>, i: nat, acc: Parsed)
    requires i <= |a|
    requires b == [] || Head(b[0]) == '-'
    ensures ParseFrom(a + b, i, acc) == ParseFrom(b, 0, ParseFrom(a, i, acc))
    decreases |a| - i
  {
    var ab := a + b;
    if i == |a| {
      assert ab[i..] == b;
      ParseSuffix(ab, i, b, acc);
    } else {
      assert ab[i] == a[i];
      assert TakesValue(ab, i) <==> TakesValue(a, i) by {
        if i + 1 < |a| {
          assert ab[i + 1] == a[i + 1];
        } else if i + 1 < |ab| {
          assert ab[i + 1] == b[0];
        }
      }
      var arg := a[i];
      if IsOption(arg) {
        if TakesValue(a, i) {
          assert ab[i + 1] == a[i + 1];
          ParseAppend(a, b, i + 2, acc.(options := acc.options[OptionName(arg) := a[i + 1]]));
        } else {
          ParseAppend(a, b, i + 1, acc.(options := acc.options[OptionName(arg) := "true"]));
        }
      } else {
        ParseAppend(a, b, i + 1, acc.(positional := acc.positional + [arg]));
      }
    }
  }

  /** Parsing from `i` depends only on the arguments from `i` on. */
  lemma {:induction false} ParseSuffix(args: seq<string>, i: nat, rest: seq<string>, acc: Parsed)
    requires i <= |args| && args[i..] == rest
    ensures ParseFrom(args, i, acc) == ParseFrom(rest, 0, acc)
    decreases |args| - i
  {
    if i < |args| {
      assert rest[0] == args[i];
      assert TakesValue(args, i) <==> TakesValue(rest, 0) by {
        if i + 1 < |args| {
          assert rest[1] == args[i + 1];
        }
      }
      var arg := args[i];
      if IsOption(arg) {
        if TakesValue(args, i) {
          var acc' := acc.(options := acc.options[OptionName(arg) := args[i + 1]]);
          ParseSuffix(args, i + 2, rest[2..], acc');
          ParseSuffix(rest, 2, rest[2..], acc');
        } else {
          var acc' := acc.(options := acc.options[OptionName(arg) := "true"]);
          ParseSuffix(args, i + 1, rest[1..], acc');
          ParseSuffix(rest, 1, rest[1..], acc');
        }
      } else {
        var acc' := acc.(positional := acc.positional + [arg]);
        ParseSuffix(args, i + 1, rest[1..], acc');
        ParseSuffix(rest, 1, rest[1..], acc');
      }
    }
  }

  /** `--name value` and `-name value` store the value when it does not start with a dash. */
  lemma OptionWithValue(arg: string, value: string, acc: Parsed)
    requires IsOption(arg) && Head(value) != '-'
    ensures ParseFrom([arg, value], 0, acc) == acc.(options := acc.options[OptionName(arg) := value])
  {
    assert TakesValue([arg, value], 0);
  }

  /** An option with nothing after it is a flag, stored as "true". */
  lemma OptionAsFlag(arg: string, acc: Parsed)
    requires IsOption(arg)
    ensures ParseFrom([arg], 0, acc) == acc.(options := acc.options[OptionName(arg) := "true"])
  {}

  /** A bare "-" is positional, like every argument that does not start with a dash. */
  lemma LoneDashIsPositional(acc: Parsed)
    ensures ParseFrom(["-"], 0, acc) == acc.(positional := acc.positional + ["-"])
  {
    assert !IsOption("-");
  }

  /** Arguments none of which starts with a dash are appended to the positional list, in order. */
  lemma {:induction false} PlainArgumentsArePositional(args: seq<string>, i: nat, acc: Parsed)
    requires i <= |args|
    requires forall j :: i <= j < |args| ==> Head(args[j]) != '-'
    ensures ParseFrom(args, i, acc) == acc.(positional := acc.positional + args[i..])
    decreases |args| - i
  {
    if i < |args| {
      assert !IsOption(args[i]) by {
        if |args[i]| >= 2 {
          assert args[i][..2][0] == args[i][0];
        }
      }
      PlainArgumentsArePositional(args, i + 1, acc.(positional := acc.positional + [args[i]]));
      assert acc.positional + [args[i]] + args[i + 1..] == acc.positional + args[i..];
    }
  }

  /** A repeated option keeps the value of its last occurrence. */
  lemma LastValueWins(a: seq<string>, name: string, value: string, acc: Parsed)
    requires Head(value) != '-'
    ensures var p := ParseFrom(a + ["--" + name, value], 0, acc);
            name in p.options && p.options[name] == value
  {
    var arg := "--" + name;
    assert IsLong(arg) && arg[..2] == "--";
    ParseAppend(a, [arg, value], 0, acc);
    OptionWithValue(arg, value, ParseFrom(a, 0, acc));
    assert OptionName(arg) == name;
  }

  /** The parser never loses anything: earlier options keep their keys, and earlier positionals stay in front. */
  lemma {:induction false} ParseKeepsEarlier(args: seq<string>, i: nat, acc: Parsed)
    requires i <= |args|
    ensures acc.options.Keys <= ParseFrom(args, i, acc).options.Keys
    ensures acc.positional <= ParseFrom(args, i, acc).positional
    decreases |args| - i
  {
    if i < |args| {
      var arg := args[i];
      if IsOption(arg) {
        if TakesValue(args, i) {
          ParseKeepsEarlier(args, i + 2, acc.(options := acc.options[OptionName(arg) := args[i + 1]]));
        } else {
          ParseKeepsEarlier(args, i + 1, acc.(options := acc.options[OptionName(arg) := "true"]));
        }
      } else {
        ParseKeepsEarlier(args, i + 1, acc.(positional := acc.positional + [arg]));
      }
    }
  }

  /** Every key the parser adds is the name of an option argument. */
  lemma {:induction false} NewKeysAreOptionNames(args: seq<string>, i: nat, acc: Parsed)
    requires i <= |args|
    ensures forall k :: k in ParseFrom(args, i, acc).options && k !in acc.options ==>
              exists j :: i <= j < |args| && IsOption(args[j]) && OptionName(args[j]) == k
    decreases |args| - i
  {
    if i < |args| {
      var arg := args[i];
      if IsOption(arg) {
        var acc' := if TakesValue(args, i) then acc.(options := acc.options[OptionName(arg) := args[i + 1]])
                    else acc.(options := acc.options[OptionName(arg) := "true"]);
        var next := if TakesValue(args, i) then i + 2 else i + 1;
        NewKeysAreOptionNames(args, next, acc');
      } else {
        NewKeysAreOptionNames(args, i + 1, acc.(positional := acc.positional + [arg]));
      }
    }
  }

  // ---------------------------------------------------------------------
  // The price command's input validation
  // ---------------------------------------------------------------------

  /** The inputs of a valid `price` invocation. */
  datatype PriceRequest = PriceRequest(spot: real, strike: real, rate: real, time: real, vol: real, kind: OptionType)

  /** How `PriceCommand::execute` proceeds: usage (status 0), an error (status 1), or pricing. */
  datatype PriceOutcome = Usage | Rejected | Price(request: PriceRequest)

  /** The option type a `--type` string names: "call" or "c", "put" or "p". */
  function TypeNamed(s: string): (t: Option<OptionType>)
    ensures t == Some(Call) <==> s == "call" || s == "c"
    ensures t == Some(Put) <==> s == "put" || s == "p"
  {
    if s == "call" || s == "c" then Some(Call)
    else if s == "put" || s == "p" then Some(Put)
    else None
  }

  /** A required number: the long key, else the short key, else 0. */
  function Required(p: Parsed, long: string, short: string, stod: string -> Option<real>): real
  {
    Lookup(p, long, Lookup(p, short, 0.0, stod), stod)
  }

  /** The type string: `--type`, else `-t`, else empty. */
  function TypeString(p: Parsed): string
  {
    OptionOr(p, "type", OptionOr(p, "t", ""))
  }

  /** `PriceCommand::execute` up to the pricing: parse the arguments, then validate them. */
  function PriceCommandOutcome(args: seq<string>, stod: string -> Option<real>): PriceOutcome
  {
    Validate(ParseFrom(args, 0, Parsed(map[], [])), stod)
  }

  /** The validation part of `PriceCommand::execute`. */
  function Validate(p: Parsed, stod: string -> Option<real>): (o: PriceOutcome)
    ensures o == Usage <==> "help" in p.options || "h" in p.options
    ensures o.Price? ==> var q := o.request;
              0.0 < q.spot && 0.0 < q.strike && 0.0 < q.time && 0.0 < q.vol && TypeNamed(TypeString(p)) == Some(q.kind)
  {
    if "help" in p.options || "h" in p.options then Usage
    else
      var spot := Required(p, "spot", "S", stod);
      var strike := Required(p, "strike", "K", stod);
      var rate := Required(p, "rate", "r", stod);
      var time := Required(p, "time", "T", stod);
      var vol := Required(p, "vol", "v", stod);
      var typeStr := TypeString(p);
      if spot <= 0.0 || strike <= 0.0 || time <= 0.0 || vol <= 0.0 || typeStr == [] then Rejected
      else match TypeNamed(typeStr)
        case Some(kind) => Price(PriceRequest(spot, strike, rate, time, vol, kind))
        case None => Rejected
  }

  /** The exit status `execute` returns. */
  function ExitStatus(o: PriceOutcome): int
  {
    if o == Rejected then 1 else 0
  }

  /**
   * Without a help flag, `price` fails with status 1 exactly when spot,
   * strike, time or volatility is not positive or the type is not one of
   * call, c, put, p; the rate is never checked.
   */
  lemma PriceCommandStatus(p: Parsed, stod: string -> Option<real>)
    requires "help" !in p.options && "h" !in p.options
    ensures ExitStatus(Validate(p, stod)) == 1 <==>
              Required(p, "spot", "S", stod) <= 0.0 || Required(p, "strike", "K", stod) <= 0.0 ||
              Required(p, "time", "T", stod) <= 0.0 || Required(p, "vol", "v", stod) <= 0.0 ||
              TypeNamed(TypeString(p)).None?
    ensures Validate(p, stod).Price? ==> Validate(p, stod).request.rate == Required(p, "rate", "r", stod)
  {
    assert TypeString(p) == [] ==> TypeNamed(TypeString(p)).None?;
  }

  /** The long spelling of a key wins over the short one. */
  lemma LongKeyWins(p: Parsed, long: string, short: string, stod: string -> Option<real>)
    requires long in p.options && stod(p.options[long]).Some?
    ensures Required(p, long, short, stod) == stod(p.options[long]).value
  {}

  // ---------------------------------------------------------------------
  // Completion, colour and tokenising
  // ---------------------------------------------------------------------

  /** The options `PriceCommand::get_completions` offers, in its order. */
  const PriceOptions: seq<string> :=
    ["--spot", "--strike", "--rate", "--time", "--vol", "--type", "--format", "--precision", "--greeks"]

  /** The entries of `options` that start with `partial`, in order. */
  function Completions(options: seq<string>, partial: string): seq<string>
  {
    if options == [] then []
    else
      var init := Completions(options[..|options| - 1], partial);
      if StartsWith(options[|options| - 1], partial) then init + [options[|options| - 1]] else init
  }

  /** The completions are exactly the options with the prefix. */
  lemma {:induction false} CompletionsMembers(options: seq<string>, partial: string)
    ensures forall x :: x in Completions(options, partial) <==> x in options && StartsWith(x, partial)
  {
    if options != [] {
      CompletionsMembers(options[..|options| - 1], partial);
      assert options == options[..|options| - 1] + [options[|options| - 1]];
    }
  }

  /** Completion keeps list order: completing a concatenation concatenates the completions. */
  lemma {:induction false} CompletionsAppend(a: seq<string>, b: seq<string>, partial: string)
    ensures Completions(a + b, partial) == Completions(a, partial) + Completions(b, partial)
  {
    if b != [] {
      assert (a + b)[..|a + b| - 1] == a + b[..|b| - 1];
      CompletionsAppend(a, b[..|b| - 1], partial);
    } else {
      assert a + b == a;
    }
  }

  /** `get_completions`: the loop that keeps the options the partial string starts. */
  method GetCompletions(partial: string) returns (completions: seq<string>)
    ensures completions == Completions(PriceOptions, partial)
  {
    completions := [];
    for k := 0 to |PriceOptions|
      invariant completions == Completions(PriceOptions[..k], partial)
    {
      assert PriceOptions[..k + 1][..k] == PriceOptions[..k];
      if StartsWith(PriceOptions[k], partial) {
        completions := completions + [PriceOptions[k]];
      }
    }
    assert PriceOptions[..|PriceOptions|] == PriceOptions;
  }

  /** The colour themes of the configuration. */
  datatype ColorTheme = NoColor | Light | Dark | Professional

  const Reset: string := "\U{1B}[0m"

  /** `colorize`: the text unchanged without colours, else wrapped in the colour code and the reset code. */
  function Colorize(theme: ColorTheme, text: string, color: string): (s: string)
    ensures theme == NoColor ==> s == text
    ensures theme != NoColor ==> |s| == |color| + |text| + |Reset| && s[|color|..|color| + |text|] == text
    ensures theme != NoColor ==> StartsWith(s, color) && s[|s| - |Reset|..] == Reset
  {
    if theme == NoColor then text else color + text + Reset
  }

  /** A word `>>` can extract: non-empty, with no white space in it. */
  predicate IsWord(w: string)
  {
    w != [] && forall i :: 0 <= i < |w| ==> !IsSpace(w[i])
  }

  /**
   * The words of `cur + s`, where `cur` is a partly read word: white space
   * ends a word, and runs of it produce nothing.
   */
  function Words(s: string, cur: string): (ws: seq<string>)
    requires forall i :: 0 <= i < |cur| ==> !IsSpace(cur[i])
    ensures forall j :: 0 <= j < |ws| ==> IsWord(ws[j])
    decreases |s|
  {
    var done := if cur == [] then [] else [cur];
    if s == [] then done
    else if IsSpace(s[0]) then done + Words(s[1..], [])
    else Words(s[1..], cur + [s[0]])
  }

  /** `tokenize`: the words of the line, in order. */
  function Tokens(s: string): seq<string>
  {
    Words(s, [])
  }

  /** `tokenize`: reads word after word and collects them. */
  method Tokenize(input: string) returns (tokens: seq<string>)
    ensures tokens == Tokens(input)
  {
    tokens := [];
    var token := "";
    for i := 0 to |input|
      invariant forall j :: 0 <= j < |token| ==> !IsSpace(token[j])
      invariant tokens + Words(input[i..], token) == Tokens(input)
    {
      assert input[i..][1..] == input[i + 1..];
      if IsSpace(input[i]) {
        if token != [] {
          tokens := tokens + [token];
          token := "";
        }
      } else {
        token := token + [input[i]];
      }
    }
    if token != [] {
      tokens := tokens + [token];
    }
  }

  /** The words joined with one space between each two. */
  function JoinWords(ws: seq<string>): string
  {
    if ws == [] then [] else if |ws| == 1 then ws[0] else ws[0] + " " + JoinWords(ws[1..])
  }

  /** A word read into `cur` just lengthens it. */
  lemma {:induction false} WordsOfWord(w: string, rest: string, cur: string)
    requires forall i :: 0 <= i < |cur| ==> !IsSpace(cur[i])
    requires forall i :: 0 <= i < |w| ==> !IsSpace(w[i])
    ensures Words(w + rest, cur) == Words(rest, cur + w)
    decreases |w|
  {
    if w == [] {
      assert w + rest == rest;
      assert cur + w == cur;
    } else {
      assert (w + rest)[0] == w[0];
      assert (w + rest)[1..] == w[1..] + rest;
      WordsOfWord(w[1..], rest, cur + [w[0]]);
      assert cur + [w[0]] + w[1..] == cur + w;
    }
  }

  /** Tokenising words joined by single spaces gives the words back. */
  lemma {:induction false} TokensOfJoin(ws: seq<string>)
    requires forall j :: 0 <= j < |ws| ==> IsWord(ws[j])
    ensures Tokens(JoinWords(ws)) == ws
  {
    if ws == [] {
    } else if |ws| == 1 {
      WordsOfWord(ws[0], [], []);
      assert ws[0] + [] == ws[0];
      assert [] + ws[0] == ws[0];
    } else {
      var rest := " " + JoinWords(ws[1..]);
      assert JoinWords(ws) == ws[0] + rest;
      WordsOfWord(ws[0], rest, []);
      assert [] + ws[0] == ws[0];
      assert rest[1..] == JoinWords(ws[1..]);
      TokensOfJoin(ws[1..]);
      assert Words(rest, ws[0]) == [ws[0]] + Words(rest[1..], []);
    }
  }

  // ---------------------------------------------------------------------
  // TableFormatter
  // ---------------------------------------------------------------------

  function NMax(a: nat, b: nat): nat { if a < b then b else a }

  /**
   * The widths after one more row: a column the widths already have grows
   * to the row's cell if that is longer; a column past them is added with
   * the cell's length.
   */
  function Widen(ws: seq<nat>, row: seq<string>): (r: seq<nat>)
    ensures |r| == NMax(|ws|, |row|)
  {
    seq(NMax(|ws|, |row|), i requires 0 <= i < NMax(|ws|, |row|) =>
      if i < |ws| && i < |row| then NMax(ws[i], |row[i]|)
      else if i < |ws| then ws[i]
      else |row[i]|)
  }

  /** Widening never narrows a column, and makes room for every cell of the row. */
  lemma WidenGrows(ws: seq<nat>, row: seq<string>)
    ensures forall i :: 0 <= i < |ws| ==> ws[i] <= Widen(ws, row)[i]
    ensures forall i :: 0 <= i < |row| ==> |row[i]| <= Widen(ws, row)[i]
  {}

  /** The widths of a table given header first: every row widens them in turn. */
  function ColumnWidths(table: seq<seq<string>>): seq<nat>
  {
    if table == [] then [] else Widen(ColumnWidths(table[..|table| - 1]), table[|table| - 1])
  }

  /** Every cell of the row fits its column. */
  predicate RowFits(ws: seq<nat>, row: seq<string>)
  {
    |row| <= |ws| && forall i :: 0 <= i < |row| ==> |row[i]| <= ws[i]
  }

  /** Every cell of the table fits its column. */
  ghost predicate Fits(ws: seq<nat>, table: seq<seq<string>>)
  {
    forall k :: 0 <= k < |table| ==> RowFits(ws, table[k])
  }

  /** Every column is as wide as some cell in it. */
  ghost predicate Attained(ws: seq<nat>, table: seq<seq<string>>)
  {
    forall i :: 0 <= i < |ws| ==> exists k :: 0 <= k < |table| && i < |table[k]| && ws[i] == |table[k][i]|
  }

  /** The computed widths are the column maxima: every cell fits, and no column is wider than its widest cell. */
  lemma {:induction false} ColumnWidthsAreMaxima(table: seq<seq<string>>)
    ensures Fits(ColumnWidths(table), table) && Attained(ColumnWidths(table), table)
  {
    if table != [] {
      var init, last := table[..|table| - 1], table[|table| - 1];
      ColumnWidthsAreMaxima(init);
      var ws := ColumnWidths(init);
      var r := Widen(ws, last);
      WidenGrows(ws, last);
      forall k | 0 <= k < |table|
        ensures RowFits(r, table[k])
      {
        if k < |init| {
          assert table[k] == init[k];
        } else {
          assert table[k] == last;
        }
      }
      forall i | 0 <= i < |r|
        ensures exists k :: 0 <= k < |table| && i < |table[k]| && r[i] == |table[k][i]|
      {
        var k := WidestRow(table, i);
      }
    }
  }

  /** A row whose cell gives column `i` its width. */
  lemma {:induction false} WidestRow(table: seq<seq<string>>, i: nat) returns (k: nat)
    requires i < |ColumnWidths(table)|
    ensures k < |table| && i < |table[k]| && ColumnWidths(table)[i] == |table[k][i]|
  {
    var init, last := table[..|table| - 1], table[|table| - 1];
    var ws := ColumnWidths(init);
    if i < |ws| && (i >= |last| || |last[i]| <= ws[i]) {
      k := WidestRow(init, i);
      assert table[k] == init[k];
    } else {
      k := |table| - 1;
    }
  }

  /** `s` left-aligned in a field of `w` characters (`std::left << std::setw(w)`); never truncated. */
  function PadRight(s: string, w: nat): (t: string)
    ensures |t| == NMax(|s|, w) && t[..|s|] == s
  {
    if |s| < w then s + Repeat(' ', w - |s|) else s
  }

  /** `n` copies of `c`: the fill of `std::setw` and the dash runs of the separator line. */
  function Repeat(c: char, n: nat): (s: string)
    ensures |s| == n && forall i :: 0 <= i < n ==> s[i] == c
  {
    seq(n, i => c)
  }

  /** Column `i` of a row: the cell padded to the width, or blanks when the row has no such cell. */
  function CellText(row: seq<string>, i: nat, w: nat): string
  {
    if i < |row| then PadRight(row[i], w) else Repeat(' ', w)
  }

  /** The first `k` columns of a formatted row: separator, space, cell, space. */
  function RowPrefix(ws: seq<nat>, row: seq<string>, sep: char, k: nat): string
    requires k <= |ws|
  {
    if k == 0 then [] else RowPrefix(ws, row, sep, k - 1) + [sep] + " " + CellText(row, k - 1, ws[k - 1]) + " "
  }

  /** `format_row`: every column, then a closing separator. */
  function RowText(ws: seq<nat>, row: seq<string>, sep: char): string
  {
    RowPrefix(ws, row, sep, |ws|) + [sep]
  }

  /** The first `k` columns of the separator line: "+" and `width + 2` dashes. */
  function SeparatorPrefix(ws: seq<nat>, k: nat): string
    requires k <= |ws|
  {
    if k == 0 then [] else SeparatorPrefix(ws, k - 1) + "+" + Repeat('-', ws[k - 1] + 2)
  }

  /** `format_separator_line`. */
  function SeparatorText(ws: seq<nat>): string
  {
    SeparatorPrefix(ws, |ws|) + "+"
  }

  /** The lines of `format_table`: with headers, rules around the header and below the rows. */
  function TableLines(ws: seq<nat>, headers: seq<string>, rows: seq<seq<string>>): seq<string>
  {
    var body := RowLines(ws, rows);
    if headers == [] then body
    else [SeparatorText(ws), RowText(ws, headers, '|'), SeparatorText(ws)] + body + [SeparatorText(ws)]
  }

  /** One formatted line per row, in order. */
  function RowLines(ws: seq<nat>, rows: seq<seq<string>>): (lines: seq<string>)
    ensures |lines| == |rows|
  {
    if rows == [] then [] else RowLines(ws, rows[..|rows| - 1]) + [RowText(ws, rows[|rows| - 1], '|')]
  }

  /** Rows that fit give lines of the common length. */
  lemma {:induction false} RowLinesLength(ws: seq<nat>, rows: seq<seq<string>>)
    requires forall k :: 0 <= k < |rows| ==> RowFits(ws, rows[k])
    ensures forall j :: 0 <= j < |rows| ==> |RowLines(ws, rows)[j]| == FrameWidth(ws, |ws|) + 1
  {
    if rows != [] {
      RowLinesLength(ws, rows[..|rows| - 1]);
      RowLength(ws, rows[|rows| - 1]);
    }
  }

  /** Lines, each followed by a newline. */
  function Joined(lines: seq<string>): string
  {
    if lines == [] then [] else Joined(lines[..|lines| - 1]) + lines[|lines| - 1] + "\n"
  }

  lemma JoinedAppend(lines: seq<string>, line: string)
    ensures Joined(lines + [line]) == Joined(lines) + line + "\n"
  {
    assert (lines + [line])[..|lines|] == lines;
  }

  lemma JoinedOfThree(a: string, b: string, c: string)
    ensures Joined([a, b, c]) == [] + a + "\n" + b + "\n" + c + "\n"
  {
    calc {
      Joined([a, b, c]);
    == { assert [a, b, c] == [a, b] + [c]; JoinedAppend([a, b], c); }
      Joined([a, b]) + c + "\n";
    == { assert [a, b] == [a] + [b]; JoinedAppend([a], b); }
      Joined([a]) + b + "\n" + c + "\n";
    == { assert [a] == [] + [a]; JoinedAppend([], a); }
      [] + a + "\n" + b + "\n" + c + "\n";
    }
  }

  /** One more row line extends the joined text by that line and a newline. */
  lemma JoinedRowsStep(ws: seq<nat>, head: seq<string>, rs: seq<seq<string>>, k: nat)
    requires k < |rs|
    ensures Joined(head + RowLines(ws, rs[..k + 1])) == Joined(head + RowLines(ws, rs[..k])) + RowText(ws, rs[k], '|') + "\n"
  {
    assert rs[..k + 1][..k] == rs[..k];
    assert head + RowLines(ws, rs[..k + 1]) == head + RowLines(ws, rs[..k]) + [RowText(ws, rs[k], '|')];
    JoinedAppend(head + RowLines(ws, rs[..k]), RowText(ws, rs[k], '|'));
  }

  /** The total width of `k` columns: three characters of frame per column, plus the width. */
  function FrameWidth(ws: seq<nat>, k: nat): nat
    requires k <= |ws|
  {
    if k == 0 then 0 else FrameWidth(ws, k - 1) + ws[k - 1] + 3
  }

  /** A row whose cells fit is exactly as long as the separator line, column by column. */
  lemma {:induction false} RowMatchesSeparator(ws: seq<nat>, row: seq<string>, sep: char, k: nat)
    requires k <= |ws|
    requires forall i :: 0 <= i < |row| && i < k ==> |row[i]| <= ws[i]
    ensures |RowPrefix(ws, row, sep, k)| == FrameWidth(ws, k) == |SeparatorPrefix(ws, k)|
  {
    if k > 0 {
      RowMatchesSeparator(ws, row, sep, k - 1);
    }
  }

  /** A row whose cells fit its widths has the common line length. */
  lemma RowLength(ws: seq<nat>, row: seq<string>)
    requires RowFits(ws, row)
    ensures |RowText(ws, row, '|')| == FrameWidth(ws, |ws|) + 1 == |SeparatorText(ws)|
  {
    RowMatchesSeparator(ws, row, '|', |ws|);
  }

  /** A header and body framed by rules are all of one length when each part is. */
  lemma FramedLines(sep: string, hd: string, body: seq<string>, n: nat)
    requires |sep| == n && |hd| == n && forall j :: 0 <= j < |body| ==> |body[j]| == n
    ensures forall j :: 0 <= j < |body| + 4 ==> |([sep, hd, sep] + body + [sep])[j]| == n
  {
    var lines := [sep, hd, sep] + body + [sep];
    forall j | 0 <= j < |lines|
      ensures |lines[j]| == n
    {
      if j == 0 || j == 2 || j == |lines| - 1 {
        assert lines[j] == sep;
      } else if j == 1 {
        assert lines[j] == hd;
      } else {
        assert lines[j] == body[j - 3];
      }
    }
  }

  /**
   * When the widths are the column maxima of the header and the rows, every
   * line of the table has the same length: the frame lines up.
   */
  lemma TableIsRectangular(headers: seq<string>, rows: seq<seq<string>>)
    ensures var ws := ColumnWidths([headers] + rows);
            var lines := TableLines(ws, headers, rows);
            |lines| == |rows| + (if headers == [] then 0 else 4) &&
            forall j :: 0 <= j < |lines| ==> |lines[j]| == FrameWidth(ws, |ws|) + 1
  {
    var table := [headers] + rows;
    var ws := ColumnWidths(table);
    ColumnWidthsAreMaxima(table);
    var n := FrameWidth(ws, |ws|) + 1;
    var lines := TableLines(ws, headers, rows);
    var body := RowLines(ws, rows);
    forall k | 0 <= k < |rows|
      ensures RowFits(ws, rows[k])
    {
      assert table[k + 1] == rows[k];
    }
    RowLinesLength(ws, rows);
    if headers != [] {
      assert table[0] == headers;
      RowLength(ws, headers);
      FramedLines(SeparatorText(ws), RowText(ws, headers, '|'), body, n);
    }
  }

  /** `TableFormatter`: the header, the rows, and the column widths kept up to date. */
  class TableFormatter {
    var headers: seq<string>
    var rows: seq<seq<string>>
    var widths: seq<nat>

    /** The widths are those of the current header and rows. */
    ghost predicate Valid()
      reads this
    {
      widths == ColumnWidths([headers] + rows)
    }

    constructor ()
      ensures headers == [] && rows == [] && Valid()
    {
      headers, rows, widths := [], [], [];
      assert ColumnWidths([[]]) == Widen([], []);
    }

    /** `set_headers`: replaces the header and recomputes the widths. */
    method SetHeaders(h: seq<string>)
      modifies this
      ensures headers == h && rows == old(rows) && Valid()
    {
      headers := h;
      CalculateColumnWidths();
    }

    /** `add_row`: appends a row and recomputes the widths. */
    method AddRow(row: seq<string>)
      modifies this
      ensures rows == old(rows) + [row] && headers == old(headers) && Valid()
    {
      rows := rows + [row];
      CalculateColumnWidths();
    }

    /** `clear`: empties all three. */
    method Clear()
      modifies this
      ensures headers == [] && rows == [] && widths == [] && Valid()
    {
      headers, rows, widths := [], [], [];
      assert ColumnWidths([[]]) == Widen([], []);
    }

    /** `calculate_column_widths`: widens from nothing by the header, then by each row in order. */
    method CalculateColumnWidths()
      modifies this
      ensures headers == old(headers) && rows == old(rows) && Valid()
    {
      ghost var table := [headers] + rows;
      assert table[..1] == [headers];
      widths := [];
      if headers != [] {
        widths := WidenBy(widths, headers);
      } else {
        assert Widen([], headers) == [];
      }
      for k := 0 to |rows|
        invariant headers == old(headers) && rows == old(rows)
        invariant widths == ColumnWidths(table[..k + 1])
      {
        assert table[..k + 2][..k + 1] == table[..k + 1];
        assert table[k + 1] == rows[k];
        widths := WidenBy(widths, rows[k]);
      }
      assert table[..|rows| + 1] == table;
    }

    /** `format_row`. */
    method FormatRow(row: seq<string>, sep: char) returns (s: string)
      ensures s == RowText(widths, row, sep)
    {
      s := [];
      for i := 0 to |widths|
        invariant s == RowPrefix(widths, row, sep, i)
      {
        s := s + [sep] + " ";
        if i < |row| {
          s := s + PadRight(row[i], widths[i]);
        } else {
          s := s + Repeat(' ', widths[i]);
        }
        s := s + " ";
      }
      s := s + [sep];
    }

    /** `format_separator_line`. */
    method FormatSeparatorLine() returns (s: string)
      ensures s == SeparatorText(widths)
    {
      s := [];
      for i := 0 to |widths|
        invariant s == SeparatorPrefix(widths, i)
      {
        s := s + "+" + Repeat('-', widths[i] + 2);
      }
      s := s + "+";
    }

    /** `format_table`: each line followed by a newline. */
    method FormatTable() returns (s: string)
      ensures s == Joined(TableLines(widths, headers, rows))
    {
      var ws, rs := widths, rows;
      ghost var head: seq<string> := [];
      s := [];
      if headers != [] {
        var rule := FormatSeparatorLine();
        var hd := FormatRow(headers, '|');
        s := s + rule + "\n";
        s := s + hd + "\n";
        s := s + rule + "\n";
        head := [rule, hd, rule];
        JoinedOfThree(rule, hd, rule);
      }
      assert rs[..0] == [] && head + RowLines(ws, []) == head;
      for k := 0 to |rs|
        invariant s == Joined(head + RowLines(ws, rs[..k]))
      {
        var line := FormatRow(rs[k], '|');
        JoinedRowsStep(ws, head, rs, k);
        s := s + line + "\n";
      }
      assert rs[..|rs|] == rs;
      if headers != [] {
        var rule := FormatSeparatorLine();
        JoinedAppend(head + RowLines(ws, rs), rule);
        s := s + rule + "\n";
      } else {
        assert head + RowLines(ws, rs) == RowLines(ws, rs);
      }
    }
  }

  /** The inner loop of `calculate_column_widths` for one row. */
  method WidenBy(ws: seq<nat>, row: seq<string>) returns (r: seq<nat>)
    ensures r == Widen(ws, row)
  {
    r := ws;
    for i := 0 to |row|
      invariant r == Widen(ws, row[..i])
    {
      ghost var before := r;
      if i >= |r| {
        r := r + [|row[i]|];
      } else {
        r := r[i := NMax(r[i], |row[i]|)];
      }
      forall j | 0 <= j < |r|
        ensures r[j] == Widen(ws, row[..i + 1])[j]
      {
        assert row[..i + 1][..i] == row[..i];
      }
    }
    assert row[..|row|] == row;
  }
}
