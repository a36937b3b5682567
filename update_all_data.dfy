/** The updater that runs every fetch script in dependency order: the two
    gold-price runs first, then, only if both succeeded, the secondary
    scripts and the timestamp script. Running a script is an oracle: which
    script files exist, and what a command's subprocess does. */
module UpdateAllData {
  import opened Text

  /** What `subprocess.run` gives: an exit code, a timeout, or another exception. */
  datatype RunOutcome = Exited(code: int) | TimedOut | Crashed

  /** One script to run, with its extra arguments. */
  datatype Step = Step(script: string, args: seq<string>)

  /** A JSON value in a data file as `validate_data_file` inspects it: a
      list of entries, or anything else. An entry is an object with its
      keys, a string, a list with the strings among its elements, or a
      number, boolean or null, which `in` cannot search. */
  datatype JsonEntry = Object(keys: set<string>) | Str(text: string) | Array(strings: seq<string>) | Scalar
  datatype JsonDoc = JsonList(entries: seq<JsonEntry>) | JsonOther

  /** A data file: absent, not JSON, or a decoded document. */
  datatype DataFile = Missing | NotJson | Decoded(doc: JsonDoc)

  function YearlyGoldStep(dataDir: string): Step {
    Step("fetch_nbp_gold_prices.py", ["--output", dataDir + "/nbp-gold-prices.json"])
  }

  function MonthlyGoldStep(dataDir: string): Step {
    Step("fetch_nbp_gold_prices.py", ["--monthly", "--output", dataDir + "/nbp-gold-prices-monthly.json"])
  }

  const WarsawStep := Step("fetch_warsaw_m2_prices.py", [])
  const MinWagesStep := Step("fetch_eurostat_min_wages.py", [])
  const AvgWagesStep := Step("fetch_eurostat_avg_wages.py", [])
  const StocksStep := Step("fetch_stock_prices.py", [])
  const TimestampStep := Step("update_timestamp.py", [])

  /** The gold-price runs everything else depends on. */
  function PrimarySteps(dataDir: string): seq<Step> {
    [YearlyGoldStep(dataDir), MonthlyGoldStep(dataDir)]
  }

  /** The runs that follow when both gold-price runs succeeded. */
  const SecondarySteps := [WarsawStep, MinWagesStep, AvgWagesStep, StocksStep, TimestampStep]

  /** `k in entry`: a key of an object, a substring of a string, an
      element of a list. On a number, a boolean or null, `in` raises
      TypeError, which `validate_data_file` turns into False. */
  predicate HasKey(entry: JsonEntry, k: string) {
    match entry
    case Object(keys) => k in keys
    case Str(text) => Contains(text, k)
    case Array(strings) => k in strings
    case Scalar => false
  }

  /** `validate_data_file` on a file's content: it exists, decodes to a
      non-empty list, and, when keys are expected, `in` finds every one of
      them in the first entry. */
  predicate ValidateDataFile(file: DataFile, expectedKeys: seq<string>) {
    file.Decoded? && file.doc.JsonList? && |file.doc.entries| > 0 &&
    (expectedKeys == [] || forall k :: k in expectedKeys ==> HasKey(file.doc.entries[0], k))
  }

  /** Expecting fewer keys never turns a valid file invalid. */
  lemma ValidateFewerKeys(file: DataFile, keys: seq<string>, fewer: seq<string>)
    requires ValidateDataFile(file, keys)
    requires forall k :: k in fewer ==> k in keys
    ensures ValidateDataFile(file, fewer)
  {
    if fewer != [] {
      assert fewer[0] in keys;
    }
  }

  /** A yearly gold file whose first entry has `year`, `price` and more is
      valid; an empty list or a first entry lacking `price` is not. */
  lemma ValidateExamples()
    ensures ValidateDataFile(Decoded(JsonList([Object({"year", "price", "note"})])), ["year", "price"])
    ensures !ValidateDataFile(Decoded(JsonList([])), ["year", "price"])
    ensures !ValidateDataFile(Decoded(JsonList([Object({"year"}), Object({"year", "price"})])), ["year", "price"])
  {
    var e := Object({"year"});
    assert "price" in ["year", "price"] && !HasKey(e, "price");
  }

  /** A first entry that is a list holding the expected keys as strings
      passes the check although it is not an object; a number never does. */
  lemma ValidateNonObjectEntries(keys: seq<string>)
    requires keys != []
    ensures ValidateDataFile(Decoded(JsonList([Array(keys)])), keys)
    ensures !ValidateDataFile(Decoded(JsonList([Scalar])), keys)
  {
    assert keys[0] in keys;
  }

  /** A string entry passes exactly when every expected key is a substring of it. */
  lemma ValidateTextEntry(text: string, rest: seq<JsonEntry>, keys: seq<string>)
    requires keys != []
    ensures ValidateDataFile(Decoded(JsonList([Str(text)] + rest)), keys) <==>
      forall k :: k in keys ==> Contains(text, k)
  {
  }

  class DataUpdater {
    const verbose: bool
    const skipValidation: bool
    /** `sys.executable`. */
    const python: string
    const scriptsDir: string
    const dataDir: string
    /** The commands handed to `subprocess.run`, in order. */
    var commands: seq<seq<string>>
    /** The validations performed, with their verdicts, in order. */
    var validations: seq<(string, bool)>

    constructor (verbose: bool, skipValidation: bool, python: string, scriptsDir: string, dataDir: string)
      ensures this.verbose == verbose && this.skipValidation == skipValidation
      ensures this.python == python && this.scriptsDir == scriptsDir && this.dataDir == dataDir
      ensures commands == [] && validations == []
    {
      this.verbose := verbose;
      this.skipValidation := skipValidation;
      this.python := python;
      this.scriptsDir := scriptsDir;
      this.dataDir := dataDir;
      commands := [];
      validations := [];
    }

    function ScriptPath(script: string): string {
      scriptsDir + "/" + script
    }

    /** `[sys.executable, script_path] + args`, then `-v` in verbose mode. */
    function Command(s: Step): seq<string> {
      [python, ScriptPath(s.script)] + s.args + (if verbose then ["-v"] else [])
    }

    /** The interpreter, the script's path, the step's arguments, and `-v`
        last in verbose mode. */
    lemma CommandShape(s: Step)
      ensures |Command(s)| == 2 + |s.args| + (if verbose then 1 else 0)
      ensures Command(s)[..2] == [python, ScriptPath(s.script)]
      ensures Command(s)[2..2 + |s.args|] == s.args
      ensures verbose ==> Command(s)[|Command(s)| - 1] == "-v"
    {
    }

    /** The run of a step succeeds: its script exists and its process exits with 0. */
    predicate Succeeds(s: Step, scripts: set<string>, outcome: seq<string> -> RunOutcome) {
      s.script in scripts && outcome(Command(s)) == Exited(0)
    }

    /** The command of a step, if its script exists. */
    function Launched(s: Step, scripts: set<string>): seq<seq<string>> {
      if s.script in scripts then [Command(s)] else []
    }

    /** `run_script`: a missing script fails without running anything;
        otherwise the command is run and the call succeeds exactly when the
        process exits with 0, a timeout or another exception being a failure. */
    method RunScript(s: Step, scripts: set<string>, outcome: seq<string> -> RunOutcome) returns (ok: bool)
      modifies this
      ensures ok <==> Succeeds(s, scripts, outcome)
      ensures commands == old(commands) + Launched(s, scripts)
      ensures validations == old(validations)
    {
      if s.script !in scripts {
        return false;
      }
      var cmd := [python, ScriptPath(s.script)];
      if s.args != [] {
        cmd := cmd + s.args;
      }
      if verbose {
        cmd := cmd + ["-v"];
      }
      assert cmd == Command(s);
      commands := commands + [cmd];
      var result := outcome(cmd);
      match result {
        case Exited(code) =>
          if code != 0 {
            return false;
          }
          return true;
        case TimedOut =>
          return false;
        case Crashed =>
          return false;
      }
    }

    /** The validation step after a run: skipped entirely with
        `--skip-validation`, otherwise its verdict is logged and discarded. */
    method Validate(name: string, expectedKeys: seq<string>, files: string -> DataFile)
      modifies this
      ensures commands == old(commands)
      ensures validations == old(validations) +
        (if skipValidation then [] else [(name, ValidateDataFile(files(name), expectedKeys))])
    {
      if !skipValidation {
        var valid := ValidateDataFile(files(name), expectedKeys);
        validations := validations + [(name, valid)];
      }
    }

    /** `update_all_data`: both gold-price scripts are always tried; if
        either failed nothing else runs and the result is False; otherwise
        every secondary script and the timestamp script run, whatever the
        earlier ones did. The result is True exactly when every run
        succeeded; the validations do not affect it. */
    method UpdateAll(scripts: set<string>, outcome: seq<string> -> RunOutcome, files: string -> DataFile) returns (ok: bool)
      modifies this
      ensures ok <==> PrimaryOk(scripts, outcome) && SecondaryOk(scripts, outcome)
      ensures PrimaryOk(scripts, outcome) ==>
        commands == old(commands) + Launched(YearlyGoldStep(dataDir), scripts) + Launched(MonthlyGoldStep(dataDir), scripts) +
          Launched(WarsawStep, scripts) + Launched(MinWagesStep, scripts) + Launched(AvgWagesStep, scripts) +
          Launched(StocksStep, scripts) + Launched(TimestampStep, scripts)
      ensures !PrimaryOk(scripts, outcome) ==>
        commands == old(commands) + Launched(YearlyGoldStep(dataDir), scripts) + Launched(MonthlyGoldStep(dataDir), scripts)
      ensures validations == old(validations) + GoldValidations(files) +
        (if PrimaryOk(scripts, outcome) then SecondaryValidations(files) else [])
    {
      var success := FetchGoldPrices(scripts, outcome, files);
      if !success {
        return false;
      }
      var allSecondary := FetchSecondaryData(scripts, outcome, files);
      // Step 3: the timestamp run.
      var timestamp := RunScript(TimestampStep, scripts, outcome);
      if !timestamp {
        allSecondary := false;
      }
      return allSecondary && success;
    }

    /** Step 1: the yearly and the monthly gold-price runs, each followed by
        the validation of its file; a failure of the first does not stop the
        second. */
    method FetchGoldPrices(scripts: set<string>, outcome: seq<string> -> RunOutcome, files: string -> DataFile) returns (success: bool)
      modifies this
      ensures success <==> PrimaryOk(scripts, outcome)
      ensures commands == old(commands) + Launched(YearlyGoldStep(dataDir), scripts) + Launched(MonthlyGoldStep(dataDir), scripts)
      ensures validations == old(validations) + GoldValidations(files)
    {
      success := true;
      var yearly := RunScript(YearlyGoldStep(dataDir), scripts, outcome);
      if !yearly {
        success := false;
      }
      Validate("nbp-gold-prices.json", ["year", "price"], files);
      var monthly := RunScript(MonthlyGoldStep(dataDir), scripts, outcome);
      if !monthly {
        success := false;
      }
      Validate("nbp-gold-prices-monthly.json", ["year", "month", "price"], files);
    }

    /** A run followed by the validation of the file it writes. */
    method RunValidated(s: Step, name: string, expectedKeys: seq<string>, scripts: set<string>,
                        outcome: seq<string> -> RunOutcome, files: string -> DataFile) returns (ok: bool)
      modifies this
      ensures ok <==> Succeeds(s, scripts, outcome)
      ensures commands == old(commands) + Launched(s, scripts)
      ensures validations == old(validations) +
        (if skipValidation then [] else [(name, ValidateDataFile(files(name), expectedKeys))])
    {
      ok := RunScript(s, scripts, outcome);
      Validate(name, expectedKeys, files);
    }

    /** Step 2: the Warsaw, minimum-wage, average-wage and stock runs, the
        first three followed by a validation; every run happens whatever the
        earlier ones did. */
    method FetchSecondaryData(scripts: set<string>, outcome: seq<string> -> RunOutcome, files: string -> DataFile) returns (allSecondary: bool)
      modifies this
      ensures allSecondary <==>
        Succeeds(WarsawStep, scripts, outcome) && Succeeds(MinWagesStep, scripts, outcome) &&
        Succeeds(AvgWagesStep, scripts, outcome) && Succeeds(StocksStep, scripts, outcome)
      ensures commands == old(commands) + Launched(WarsawStep, scripts) + Launched(MinWagesStep, scripts) +
        Launched(AvgWagesStep, scripts) + Launched(StocksStep, scripts)
      ensures validations == old(validations) + SecondaryValidations(files)
    {
      allSecondary := true;
      var warsaw := RunValidated(WarsawStep, "warsaw-m2-prices-monthly.json", ["year", "month", "priceM2_pln"], scripts, outcome, files);
      if !warsaw {
        allSecondary := false;
      }
      var minWages := RunValidated(MinWagesStep, "min-wages.json", ["year", "wage", "price"], scripts, outcome, files);
      if !minWages {
        allSecondary := false;
      }
      var avgWages := RunValidated(AvgWagesStep, "avg-wages.json", ["year", "wage", "price"], scripts, outcome, files);
      if !avgWages {
        allSecondary := false;
      }
      var stocks := RunScript(StocksStep, scripts, outcome);
      if !stocks {
        allSecondary := false;
      }
    }

    /** The verdicts step 1 records: both gold files, whether or not their
        runs succeeded; nothing with `--skip-validation`. */
    function GoldValidations(files: string -> DataFile): (v: seq<(string, bool)>)
      ensures skipValidation <==> v == []
    {
      if skipValidation then []
      else [("nbp-gold-prices.json", ValidateDataFile(files("nbp-gold-prices.json"), ["year", "price"])),
            ("nbp-gold-prices-monthly.json", ValidateDataFile(files("nbp-gold-prices-monthly.json"), ["year", "month", "price"]))]
    }

    /** The verdicts step 2 records: the Warsaw, minimum-wage and
        average-wage files, and no file of the stock run. */
    function SecondaryValidations(files: string -> DataFile): (v: seq<(string, bool)>)
      ensures skipValidation <==> v == []
    {
      if skipValidation then []
      else [("warsaw-m2-prices-monthly.json", ValidateDataFile(files("warsaw-m2-prices-monthly.json"), ["year", "month", "priceM2_pln"])),
            ("min-wages.json", ValidateDataFile(files("min-wages.json"), ["year", "wage", "price"])),
            ("avg-wages.json", ValidateDataFile(files("avg-wages.json"), ["year", "wage", "price"]))]
    }

    /** Both gold-price runs succeed. */
    predicate PrimaryOk(scripts: set<string>, outcome: seq<string> -> RunOutcome) {
      Succeeds(YearlyGoldStep(dataDir), scripts, outcome) && Succeeds(MonthlyGoldStep(dataDir), scripts, outcome)
    }

    /** Every secondary run and the timestamp run succeed. */
    predicate SecondaryOk(scripts: set<string>, outcome: seq<string> -> RunOutcome) {
      Succeeds(WarsawStep, scripts, outcome) && Succeeds(MinWagesStep, scripts, outcome) &&
      Succeeds(AvgWagesStep, scripts, outcome) && Succeeds(StocksStep, scripts, outcome) &&
      Succeeds(TimestampStep, scripts, outcome)
    }

    /** So the result is True exactly when every step of the schedule succeeds. */
    lemma AllStepsSucceed(scripts: set<string>, outcome: seq<string> -> RunOutcome)
      ensures PrimaryOk(scripts, outcome) && SecondaryOk(scripts, outcome) <==>
        forall s :: s in PrimarySteps(dataDir) + SecondarySteps ==> Succeeds(s, scripts, outcome)
    {
    }

    /** Seven runs whose scripts are present launch their seven commands. */
    lemma SevenLaunched(s1: Step, s2: Step, s3: Step, s4: Step, s5: Step, s6: Step, s7: Step, scripts: set<string>)
      requires s1.script in scripts && s2.script in scripts && s3.script in scripts && s4.script in scripts
      requires s5.script in scripts && s6.script in scripts && s7.script in scripts
      ensures Launched(s1, scripts) + Launched(s2, scripts) + Launched(s3, scripts) + Launched(s4, scripts) +
        Launched(s5, scripts) + Launched(s6, scripts) + Launched(s7, scripts) ==
        [Command(s1), Command(s2), Command(s3), Command(s4), Command(s5), Command(s6), Command(s7)]
    {
    }

    /** With every script present, the commands run are the seven steps in
        their fixed order. */
    lemma FullSchedule(scripts: set<string>)
      requires forall s :: s in PrimarySteps(dataDir) + SecondarySteps ==> s.script in scripts
      ensures Launched(YearlyGoldStep(dataDir), scripts) + Launched(MonthlyGoldStep(dataDir), scripts) +
        Launched(WarsawStep, scripts) + Launched(MinWagesStep, scripts) + Launched(AvgWagesStep, scripts) +
        Launched(StocksStep, scripts) + Launched(TimestampStep, scripts) ==
        [Command(YearlyGoldStep(dataDir)), Command(MonthlyGoldStep(dataDir)), Command(WarsawStep),
         Command(MinWagesStep), Command(AvgWagesStep), Command(StocksStep), Command(TimestampStep)]
    {
      var all := PrimarySteps(dataDir) + SecondarySteps;
      assert all[0] == YearlyGoldStep(dataDir) && all[1] == MonthlyGoldStep(dataDir);
      assert all[2] == WarsawStep && all[3] == MinWagesStep && all[4] == AvgWagesStep;
      assert all[5] == StocksStep && all[6] == TimestampStep;
      SevenLaunched(all[0], all[1], all[2], all[3], all[4], all[5], all[6], scripts);
    }
  }
}
