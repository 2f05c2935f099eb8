/** The orchestrator: the eight stages run in order, the fidelity estimate
    and the warnings of the build report, and the rules for skipping the
    audio stage and aborting on a fatal failure. What a stage's script does
    once its arguments parse is an oracle `run` from the stage's position to
    its exit status and elapsed time; the argument lists main builds, and
    the parsers that may reject them, are modelled. */
module Pipeline {
  import opened Common

  datatype StageInfo = StageInfo(id: string, script: string, fatal: bool)

  const Stages: seq<StageInfo> := [
    StageInfo("parse_rom", "parse_rom.py", true),
    StageInfo("disassemble", "disassemble.py", false),
    StageInfo("translate_cpu", "translate_cpu.py", false),
    StageInfo("translate_ppu", "translate_ppu.py", false),
    StageInfo("translate_mapper", "translate_mapper.py", false),
    StageInfo("convert_graphics", "convert_graphics.py", false),
    StageInfo("convert_audio", "convert_audio.py", false),
    StageInfo("build_snes_rom", "build_snes_rom.py", true)]

  /** Only the first and the last stage are fatal. */
  lemma FatalStages(i: nat)
    requires i < |Stages|
    ensures Stages[i].fatal <==> i == 0 || i == 7
    ensures Stages[i].fatal <==> Stages[i].id in {"parse_rom", "build_snes_rom"}
  {
  }

  /** One entry of `stage_results`; elapsed time is in hundredths of a second. */
  datatype StageResult = StageResult(stage: string, success: bool, returncode: int, elapsed: nat)

  /** What running a stage's script reports. */
  datatype StageRun = StageRun(returncode: int, elapsed: nat)

  /** The keys of rom_manifest.json the report reads; a missing key is None. */
  datatype Manifest = Manifest(mapperId: Option<int>, mapperName: Option<string>, mapperSupported: Option<bool>)

  const EmptyManifest: Manifest := Manifest(None, None, None)

  /** `manifest.get("mapper_supported", False)`. */
  function Supported(m: Manifest): bool
  {
    m.mapperSupported == Some(true)
  }

  // ---------------------------------------------------------------------------
  // Fidelity and warnings
  // ---------------------------------------------------------------------------

  /** The stages that failed, in the order of the results. */
  function FailedStages(results: seq<StageResult>): (failed: seq<string>)
    ensures |failed| <= |results|
    ensures forall s :: s in failed <==> exists k :: 0 <= k < |results| && results[k].stage == s && !results[k].success
  {
    if results == [] then []
    else
      var init := results[..|results| - 1];
      var last := results[|results| - 1];
      var rest := FailedStages(init);
      assert forall k :: 0 <= k < |init| ==> init[k] == results[k];
      if last.success then rest else rest + [last.stage]
  }

  predicate Failed(results: seq<StageResult>, stage: string)
  {
    exists k :: 0 <= k < |results| && results[k].stage == stage && !results[k].success
  }

  predicate AllSucceeded(results: seq<StageResult>)
  {
    forall k :: 0 <= k < |results| ==> results[k].success
  }

  /** `estimate_fidelity`. */
  function EstimateFidelity(results: seq<StageResult>, manifest: Manifest): (fidelity: string)
    ensures !Supported(manifest) ==> fidelity == "UNSUPPORTED_MAPPER"
  {
    if !Supported(manifest) then "UNSUPPORTED_MAPPER"
    else
      var failed := FailedStages(results);
      if "build_snes_rom" in failed then "BUILD_FAILED"
      else if "translate_cpu" in failed then "TRANSLATION_FAILED"
      else if "disassemble" in failed || "convert_graphics" in failed then "DEGRADED"
      else if failed != [] then "PARTIAL"
      else "HIGH"
  }

  /** The estimate in terms of the stage results themselves: an unsupported
      mapper overrides everything, and otherwise the most serious failure
      decides, in the order build, translation, disassembly or graphics,
      anything else. */
  lemma FidelityPriority(results: seq<StageResult>, manifest: Manifest)
    ensures var f := EstimateFidelity(results, manifest);
      && (f == "UNSUPPORTED_MAPPER" <==> !Supported(manifest))
      && (f == "BUILD_FAILED" <==> Supported(manifest) && Failed(results, "build_snes_rom"))
      && (f == "TRANSLATION_FAILED" <==>
            Supported(manifest) && !Failed(results, "build_snes_rom") && Failed(results, "translate_cpu"))
      && (f == "DEGRADED" <==>
            && Supported(manifest) && !Failed(results, "build_snes_rom") && !Failed(results, "translate_cpu")
            && (Failed(results, "disassemble") || Failed(results, "convert_graphics")))
      && (f == "HIGH" <==> Supported(manifest) && AllSucceeded(results))
  {
    NoneFailed(results);
  }

  /** The failed list is empty exactly when every stage succeeded. */
  lemma NoneFailed(results: seq<StageResult>)
    ensures FailedStages(results) == [] <==> AllSucceeded(results)
  {
    var failed := FailedStages(results);
    if !AllSucceeded(results) {
      var k :| 0 <= k < |results| && !results[k].success;
      assert results[k].stage in failed;
    }
    if failed != [] {
      assert failed[0] in failed;
    }
  }

  /** PARTIAL is left for a supported mapper whose failures are all in
      stages the estimate does not single out. */
  lemma FidelityPartial(results: seq<StageResult>, manifest: Manifest)
    ensures EstimateFidelity(results, manifest) == "PARTIAL"
      <==> && Supported(manifest) && !AllSucceeded(results)
           && !Failed(results, "build_snes_rom") && !Failed(results, "translate_cpu")
           && !Failed(results, "disassemble") && !Failed(results, "convert_graphics")
  {
    FidelityPriority(results, manifest);
  }

  function WarningText(stage: string): string
  {
    "Stage '" + stage + "' failed \U{2014} degraded output"
  }

  /** The report's warnings: one per failed stage, in stage order. */
  function Warnings(results: seq<StageResult>): (warnings: seq<string>)
    ensures |warnings| == |FailedStages(results)|
    ensures forall k :: 0 <= k < |warnings| ==> warnings[k] == WarningText(FailedStages(results)[k])
  {
    var failed := FailedStages(results);
    seq(|failed|, k requires 0 <= k < |failed| => WarningText(failed[k]))
  }

  /** There is a warning exactly when some stage failed, and each failed
      stage is named by one. */
  lemma WarningsNameFailures(results: seq<StageResult>)
    ensures Warnings(results) == [] <==> AllSucceeded(results)
    ensures forall k :: 0 <= k < |results| && !results[k].success ==> WarningText(results[k].stage) in Warnings(results)
  {
    var failed := FailedStages(results);
    var w := Warnings(results);
    forall k | 0 <= k < |results| && !results[k].success
      ensures WarningText(results[k].stage) in w
    {
      assert results[k].stage in failed;
      var j :| 0 <= j < |failed| && failed[j] == results[k].stage;
      assert w[j] == WarningText(failed[j]);
    }
    NoneFailed(results);
  }

  function TotalElapsed(results: seq<StageResult>): nat
  {
    if results == [] then 0 else TotalElapsed(results[..|results| - 1]) + results[|results| - 1].elapsed
  }

  /** The parts of build_report.json the model covers. */
  datatype Report = Report(
    inputRom: string,
    mapperId: Option<int>,
    mapperName: Option<string>,
    mapperSupported: bool,
    outputRom: Option<string>,
    stages: seq<StageResult>,
    warnings: seq<string>,
    fidelity: string,
    totalElapsed: nat)

  /** `write_build_report` without the file write. */
  function BuildReport(inputRom: string, manifest: Manifest, results: seq<StageResult>, outputRom: Option<string>): Report
  {
    Report(inputRom, manifest.mapperId, manifest.mapperName, Supported(manifest), outputRom,
      results, Warnings(results), EstimateFidelity(results, manifest), TotalElapsed(results))
  }

  // ---------------------------------------------------------------------------
  // Stage arguments
  // ---------------------------------------------------------------------------

  /** The options of `main` that the stage loop reads. */
  datatype Options = Options(
    rom: string,
    workspace: string,
    output: string,
    upscale: bool,
    skipAudio: bool,
    noLlm: bool,
    backend: string,
    claudeModel: string)

  /** The model name handed to translate_cpu.py. */
  function ModelArg(opts: Options): string
  {
    if opts.backend != "ollama" then opts.claudeModel else "qwen3:8b"
  }

  function WorkspaceArgs(opts: Options): seq<string>
  {
    ["--workspace", opts.workspace]
  }

  function FlagIf(b: bool, flag: string): seq<string>
  {
    if b then [flag] else []
  }

  /** `stage_args[stage_id]` for stage i, as main builds it. */
  function StageArgs(opts: Options, i: nat): (args: seq<string>)
    requires i < |Stages|
    ensures |args| >= 2
    ensures i == 0 ==> args[0] == opts.rom && args[1..] == WorkspaceArgs(opts)
    ensures i != 0 ==> args[..2] == WorkspaceArgs(opts)
  {
    var ws := WorkspaceArgs(opts);
    match i
    case 0 => [opts.rom] + ws
    case 2 => ws + FlagIf(opts.noLlm, "--no-llm") + ["--model", ModelArg(opts)] + ["--backend", opts.backend]
    case 5 => ws + FlagIf(opts.upscale, "--upscale")
    case 6 => ws + FlagIf(opts.noLlm, "--no-llm")
    case 7 => ws + ["--output", opts.output]
    case _ => ws
  }

  /** What a stage script's argument parser knows: the number of positional
      arguments, the options that take a value and the options that do not. */
  datatype ArgSpec = ArgSpec(positionals: nat, valued: set<string>, flags: set<string>)

  /** The parsers of the stage scripts in this model; translate_ppu.py and
      build_snes_rom.py are not part of it. */
  function ParserOf(i: nat): Option<ArgSpec>
    requires i < |Stages|
  {
    match i
    case 0 => Some(ArgSpec(1, {"--workspace"}, {}))
    case 1 => Some(ArgSpec(0, {"--workspace"}, {}))
    case 2 => Some(ArgSpec(0, {"--workspace", "--model"}, {"--no-llm"}))
    case 4 => Some(ArgSpec(0, {"--workspace"}, {}))
    case 5 => Some(ArgSpec(0, {"--workspace"}, {"--upscale"}))
    case 6 => Some(ArgSpec(0, {"--workspace"}, {"--no-llm"}))
    case _ => None
  }

  predicate IsOptionToken(t: string)
  {
    t != [] && t[0] == '-'
  }

  /** How argparse reads `args` against `spec`: the number of positional
      arguments, or None when an option is unknown or lacks its value. */
  function Positionals(spec: ArgSpec, args: seq<string>): (n: Option<nat>)
    ensures n.Some? ==> n.value <= |args|
    decreases |args|
  {
    if args == [] then Some(0)
    else if IsOptionToken(args[0]) then
      if args[0] in spec.flags then Positionals(spec, args[1..])
      else if args[0] in spec.valued && |args| >= 2 then Positionals(spec, args[2..])
      else None
    else
      match Positionals(spec, args[1..])
      case Some(n) => Some(n + 1)
      case None => None
  }

  /** `parse_args()` returns rather than exiting with status 2. */
  predicate Accepts(spec: ArgSpec, args: seq<string>)
  {
    Positionals(spec, args) == Some(spec.positionals)
  }

  function AddCount(n: nat, m: Option<nat>): Option<nat>
  {
    if m.Some? then Some(n + m.value) else None
  }

  /** A complete parse of `a` leaves `b` to be parsed on its own. */
  lemma {:induction false} PositionalsAppend(spec: ArgSpec, a: seq<string>, b: seq<string>)
    requires Positionals(spec, a).Some?
    ensures Positionals(spec, a + b) == AddCount(Positionals(spec, a).value, Positionals(spec, b))
    decreases |a|
  {
    if a == [] {
      assert a + b == b;
    } else if IsOptionToken(a[0]) {
      var ab := a + b;
      assert ab[0] == a[0];
      if a[0] in spec.flags {
        assert ab[1..] == a[1..] + b;
        PositionalsAppend(spec, a[1..], b);
      } else {
        assert ab[2..] == a[2..] + b;
        PositionalsAppend(spec, a[2..], b);
      }
    } else {
      var ab := a + b;
      assert ab[0] == a[0] && ab[1..] == a[1..] + b;
      PositionalsAppend(spec, a[1..], b);
    }
  }

  /** What a script reports when launched with `args`: exit status 2 when
      its parser rejects them, otherwise what the script itself does. */
  function Launched(parser: Option<ArgSpec>, args: seq<string>, status: StageRun): (r: StageRun)
    ensures parser.Some? && !Accepts(parser.value, args) ==> r.returncode == 2
    ensures (parser.None? || Accepts(parser.value, args)) ==> r == status
  {
    if parser.Some? && !Accepts(parser.value, args) then StageRun(2, status.elapsed) else status
  }

  /** The stage oracle main actually sees: `run` says what each script does
      once its arguments parse. */
  function Launch(opts: Options, run: nat -> StageRun): nat -> StageRun
  {
    (i: nat) => if i < |Stages| then Launched(ParserOf(i), StageArgs(opts, i), run(i)) else run(i)
  }

  /** translate_cpu.py has no `--backend` option, so it rejects the
      arguments main gives it on every run. */
  lemma BackendRejected(opts: Options)
    ensures !Accepts(ParserOf(2).value, StageArgs(opts, 2))
  {
    var spec := ParserOf(2).value;
    var a := WorkspaceArgs(opts) + FlagIf(opts.noLlm, "--no-llm") + ["--model", ModelArg(opts)];
    var b := ["--backend", opts.backend];
    assert Positionals(spec, WorkspaceArgs(opts)) == Some(0);
    assert Positionals(spec, FlagIf(opts.noLlm, "--no-llm")) == Some(0);
    assert Positionals(spec, ["--model", ModelArg(opts)]) == Some(0);
    PositionalsAppend(spec, WorkspaceArgs(opts), FlagIf(opts.noLlm, "--no-llm"));
    PositionalsAppend(spec, WorkspaceArgs(opts) + FlagIf(opts.noLlm, "--no-llm"), ["--model", ModelArg(opts)]);
    assert Positionals(spec, b) == None;
    PositionalsAppend(spec, a, b);
  }

  /** `stage_args` without the `--backend` pair, which no stage script reads. */
  function IntendedStageArgs(opts: Options, i: nat): (args: seq<string>)
    requires i < |Stages|
    ensures i != 2 ==> args == StageArgs(opts, i)
    ensures i == 2 ==> StageArgs(opts, i) == args + ["--backend", opts.backend]
  {
    if i == 2 then WorkspaceArgs(opts) + FlagIf(opts.noLlm, "--no-llm") + ["--model", ModelArg(opts)]
    else StageArgs(opts, i)
  }

  /** Every script in this model accepts its intended arguments, given a ROM
      path that main's own parser took as a positional argument. */
  lemma IntendedArgsAccepted(opts: Options, i: nat)
    requires i < |Stages| && !IsOptionToken(opts.rom)
    ensures ParserOf(i).Some? ==> Accepts(ParserOf(i).value, IntendedStageArgs(opts, i))
  {
    if ParserOf(i).Some? {
      var spec := ParserOf(i).value;
      var ws := WorkspaceArgs(opts);
      assert Positionals(spec, ws) == Some(0);
      if i == 0 {
        assert ([opts.rom] + ws)[1..] == ws;
      } else if i == 2 {
        var f := FlagIf(opts.noLlm, "--no-llm");
        var m := ["--model", ModelArg(opts)];
        assert Positionals(spec, f) == Some(0);
        assert Positionals(spec, m) == Some(0);
        PositionalsAppend(spec, ws, f);
        PositionalsAppend(spec, ws + f, m);
      } else if i == 5 || i == 6 {
        var f := FlagIf(if i == 5 then opts.upscale else opts.noLlm, if i == 5 then "--upscale" else "--no-llm");
        assert IntendedStageArgs(opts, i) == ws + f;
        assert Positionals(spec, f) == Some(0);
        PositionalsAppend(spec, ws, f);
      }
    }
  }

  /** The stage oracle with the intended arguments. */
  function IntendedLaunch(opts: Options, run: nat -> StageRun): nat -> StageRun
  {
    (i: nat) => if i < |Stages| then Launched(ParserOf(i), IntendedStageArgs(opts, i), run(i)) else run(i)
  }

  /** With the intended arguments no script is turned away by its parser:
      every stage reports what its script does. */
  lemma IntendedLaunchRuns(opts: Options, run: nat -> StageRun)
    requires !IsOptionToken(opts.rom)
    ensures forall i: nat :: IntendedLaunch(opts, run)(i) == run(i)
  {
    forall i: nat ensures IntendedLaunch(opts, run)(i) == run(i) {
      if i < |Stages| {
        IntendedArgsAccepted(opts, i);
      }
    }
  }

  // ---------------------------------------------------------------------------
  // The stage loop
  // ---------------------------------------------------------------------------

  /** The entry stage i contributes: a skipped audio stage succeeds with
      return code 0 and no elapsed time; any other stage succeeds exactly
      when its script exits with 0. */
  function ResultAt(skipAudio: bool, run: nat -> StageRun, i: nat): (r: StageResult)
    requires i < |Stages|
    ensures r.stage == Stages[i].id
    ensures r.success <==> r.returncode == 0
  {
    if skipAudio && Stages[i].id == "convert_audio" then StageResult(Stages[i].id, true, 0, 0)
    else StageResult(Stages[i].id, run(i).returncode == 0, run(i).returncode, run(i).elapsed)
  }

  /** The entries of the first n stages. */
  function ResultsUpTo(skipAudio: bool, run: nat -> StageRun, n: nat): (rs: seq<StageResult>)
    requires n <= |Stages|
    ensures |rs| == n
    ensures forall i :: 0 <= i < n ==> rs[i] == ResultAt(skipAudio, run, i)
  {
    seq(n, i requires 0 <= i < n => ResultAt(skipAudio, run, i))
  }

  predicate FatalAt(skipAudio: bool, run: nat -> StageRun, i: nat)
    requires i < |Stages|
  {
    Stages[i].fatal && !ResultAt(skipAudio, run, i).success
  }

  /** The first stage at or after `from` whose fatal failure ends the run. */
  function FirstFatal(skipAudio: bool, run: nat -> StageRun, from: nat): (k: Option<nat>)
    requires from <= |Stages|
    ensures k.Some? ==> from <= k.value < |Stages| && FatalAt(skipAudio, run, k.value)
    ensures k.Some? ==> forall i :: from <= i < k.value ==> !FatalAt(skipAudio, run, i)
    ensures k.None? ==> forall i :: from <= i < |Stages| ==> !FatalAt(skipAudio, run, i)
    decreases |Stages| - from
  {
    if from == |Stages| then None
    else if FatalAt(skipAudio, run, from) then Some(from)
    else FirstFatal(skipAudio, run, from + 1)
  }

  datatype Outcome = Outcome(results: seq<StageResult>, report: Report, exitCode: int)

  /** The manifest the report sees: the file stage 1 left behind, if any. */
  function LoadedManifest(manifestFile: Option<Manifest>): Manifest
  {
    if manifestFile.Some? then manifestFile.value else EmptyManifest
  }

  /** The whole run: stop after the first fatal failure with no output ROM
      and exit status 1; otherwise report the output ROM if it exists, and
      exit with 1 when it does not. */
  function PipelineOutcome(inputRom: string, skipAudio: bool, run: nat -> StageRun,
                           manifestFile: Option<Manifest>, sfcPath: string, sfcExists: bool): Outcome
  {
    var manifest := LoadedManifest(manifestFile);
    match FirstFatal(skipAudio, run, 0)
    case Some(k) =>
      var rs := ResultsUpTo(skipAudio, run, k + 1);
      Outcome(rs, BuildReport(inputRom, manifest, rs, None), 1)
    case None =>
      var rs := ResultsUpTo(skipAudio, run, |Stages|);
      var output := if sfcExists then Some(sfcPath) else None;
      Outcome(rs, BuildReport(inputRom, manifest, rs, output), if sfcExists then 0 else 1)
  }

  /** Where the two special stages sit. */
  lemma StagePositions(i: nat)
    requires i < |Stages|
    ensures Stages[i].id == "parse_rom" <==> i == 0
    ensures Stages[i].id == "convert_audio" <==> i == 6
  {
  }

  lemma ResultsSnoc(skipAudio: bool, run: nat -> StageRun, i: nat)
    requires i < |Stages|
    ensures ResultsUpTo(skipAudio, run, i + 1) == ResultsUpTo(skipAudio, run, i) + [ResultAt(skipAudio, run, i)]
  {
  }

  /** The stage loop of `main`: the results it collects, the manifest it
      loads after stage 1 and whether a fatal failure aborted it. */
  method RunStages(skipAudio: bool, run: nat -> StageRun, manifestFile: Option<Manifest>)
    returns (results: seq<StageResult>, manifest: Manifest, aborted: bool)
    ensures aborted <==> FirstFatal(skipAudio, run, 0).Some?
    ensures results == ResultsUpTo(skipAudio, run, if aborted then FirstFatal(skipAudio, run, 0).value + 1 else |Stages|)
    ensures manifest == LoadedManifest(manifestFile)
  {
    results := [];
    manifest := EmptyManifest;
    for i := 0 to |Stages|
      invariant results == ResultsUpTo(skipAudio, run, i)
      invariant manifest == if i == 0 then EmptyManifest else LoadedManifest(manifestFile)
      invariant FirstFatal(skipAudio, run, 0) == FirstFatal(skipAudio, run, i)
    {
      var stage := Stages[i];
      StagePositions(i);
      ResultsSnoc(skipAudio, run, i);
      if skipAudio && stage.id == "convert_audio" {
        results := results + [StageResult(stage.id, true, 0, 0)];
        continue;
      }
      var status := run(i);
      var result := StageResult(stage.id, status.returncode == 0, status.returncode, status.elapsed);
      results := results + [result];
      if stage.id == "parse_rom" {
        if manifestFile.Some? {
          manifest := manifestFile.value;
        }
      }
      if !result.success && stage.fatal {
        aborted := true;
        return;
      }
    }
    aborted := false;
  }

  /** `main` after argument parsing. `run` says what each stage's script
      does once its arguments parse, `manifestFile` is rom_manifest.json as
      stage 1 leaves it (None when the file is absent) and `sfcExists` says
      whether the build produced output.sfc at `sfcPath`. */
  method RunPipeline(opts: Options, run: nat -> StageRun,
                     manifestFile: Option<Manifest>, sfcPath: string, sfcExists: bool)
    returns (out: Outcome)
    ensures out == PipelineOutcome(opts.rom, opts.skipAudio, Launch(opts, run), manifestFile, sfcPath, sfcExists)
  {
    var results, manifest, aborted := RunStages(opts.skipAudio, Launch(opts, run), manifestFile);
    if aborted {
      return Outcome(results, BuildReport(opts.rom, manifest, results, None), 1);
    }
    var output := if sfcExists then Some(sfcPath) else None;
    return Outcome(results, BuildReport(opts.rom, manifest, results, output), if sfcExists then 0 else 1);
  }

  /** As main launches the stages, translate_cpu.py always exits with status
      2: once stage 1 has not aborted the run, the translation stage is
      recorded as failed and the estimate can only be UNSUPPORTED_MAPPER,
      BUILD_FAILED or TRANSLATION_FAILED. */
  lemma TranslationAlwaysFails(opts: Options, run: nat -> StageRun,
                               manifestFile: Option<Manifest>, sfcPath: string, sfcExists: bool)
    ensures var out := PipelineOutcome(opts.rom, opts.skipAudio, Launch(opts, run), manifestFile, sfcPath, sfcExists);
      && (|out.results| == 1 || |out.results| > 2)
      && (|out.results| > 2 ==>
            && out.results[2] == StageResult("translate_cpu", false, 2, run(2).elapsed)
            && out.report.fidelity in {"UNSUPPORTED_MAPPER", "BUILD_FAILED", "TRANSLATION_FAILED"})
  {
    BackendRejected(opts);
    FailedTranslation(opts.rom, opts.skipAudio, Launch(opts, run), run(2).elapsed, manifestFile, sfcPath, sfcExists);
  }

  /** The same for any stage oracle under which stage 2 exits with status 2. */
  lemma FailedTranslation(inputRom: string, skipAudio: bool, launched: nat -> StageRun, elapsed: nat,
                          manifestFile: Option<Manifest>, sfcPath: string, sfcExists: bool)
    requires launched(2) == StageRun(2, elapsed)
    ensures var out := PipelineOutcome(inputRom, skipAudio, launched, manifestFile, sfcPath, sfcExists);
      && (|out.results| == 1 || |out.results| > 2)
      && (|out.results| > 2 ==>
            && out.results[2] == StageResult("translate_cpu", false, 2, elapsed)
            && out.report.fidelity in {"UNSUPPORTED_MAPPER", "BUILD_FAILED", "TRANSLATION_FAILED"})
  {
    var out := PipelineOutcome(inputRom, skipAudio, launched, manifestFile, sfcPath, sfcExists);
    OutcomeCases(inputRom, skipAudio, launched, manifestFile, sfcPath, sfcExists);
    var ff := FirstFatal(skipAudio, launched, 0);
    if ff.Some? {
      FatalStages(ff.value);
    }
    if |out.results| > 2 {
      assert out.results[2] == ResultAt(skipAudio, launched, 2);
      var manifest := LoadedManifest(manifestFile);
      assert out.report == BuildReport(inputRom, manifest, out.results, out.report.outputRom);
      FidelityPriority(out.results, manifest);
      assert Failed(out.results, "translate_cpu");
    }
  }

  /** The results follow the stage order, one entry per stage run or
      skipped; after a fatal failure no later stage has an entry, the report
      names no output ROM and the exit status is 1. */
  lemma OutcomeShape(inputRom: string, skipAudio: bool, run: nat -> StageRun,
                     manifestFile: Option<Manifest>, sfcPath: string, sfcExists: bool)
    ensures var out := PipelineOutcome(inputRom, skipAudio, run, manifestFile, sfcPath, sfcExists);
      && 1 <= |out.results| <= |Stages|
      && (forall k :: 0 <= k < |out.results| ==> out.results[k].stage == Stages[k].id)
      && out.report.stages == out.results
      && (forall k :: 0 <= k < |out.results| - 1 ==> !(Stages[k].fatal && !out.results[k].success))
      && (|out.results| < |Stages| ==> !out.results[|out.results| - 1].success && out.report.outputRom == None)
      && (out.exitCode == 0 <==> |out.results| == |Stages| && sfcExists && !FatalAt(skipAudio, run, 7))
  {
    OutcomeCases(inputRom, skipAudio, run, manifestFile, sfcPath, sfcExists);
    var ff := FirstFatal(skipAudio, run, 0);
    if ff.Some? {
      assert FatalAt(skipAudio, run, ff.value);
    } else {
      assert !FatalAt(skipAudio, run, 7);
    }
  }

  /** The two ways a run ends, read off `PipelineOutcome`. */
  lemma OutcomeCases(inputRom: string, skipAudio: bool, run: nat -> StageRun,
                     manifestFile: Option<Manifest>, sfcPath: string, sfcExists: bool)
    ensures var out, ff := PipelineOutcome(inputRom, skipAudio, run, manifestFile, sfcPath, sfcExists), FirstFatal(skipAudio, run, 0);
      && out.report.stages == out.results
      && (ff.Some? ==> out.results == ResultsUpTo(skipAudio, run, ff.value + 1) && out.exitCode == 1 && out.report.outputRom == None)
      && (ff.None? ==> out.results == ResultsUpTo(skipAudio, run, |Stages|) && out.exitCode == (if sfcExists then 0 else 1))
  {
  }

  /** With skip-audio set, the audio stage is recorded as a success with
      return code 0 and no elapsed time, and whatever its script would have
      done has no effect on the outcome. */
  lemma SkipAudioIgnoresStage(inputRom: string, run1: nat -> StageRun, run2: nat -> StageRun,
                              manifestFile: Option<Manifest>, sfcPath: string, sfcExists: bool)
    requires forall i :: i != 6 ==> run1(i) == run2(i)
    ensures var out := PipelineOutcome(inputRom, true, run1, manifestFile, sfcPath, sfcExists);
      && out == PipelineOutcome(inputRom, true, run2, manifestFile, sfcPath, sfcExists)
      && (|out.results| > 6 ==> out.results[6] == StageResult("convert_audio", true, 0, 0))
  {
    forall i | 0 <= i < |Stages| ensures ResultAt(true, run1, i) == ResultAt(true, run2, i) {
      if i != 6 {
        assert run1(i) == run2(i);
      }
    }
    SameFirstFatal(run1, run2, 0);
    forall n | 0 <= n <= |Stages| ensures ResultsUpTo(true, run1, n) == ResultsUpTo(true, run2, n) {
    }
  }

  lemma {:induction false} SameFirstFatal(run1: nat -> StageRun, run2: nat -> StageRun, from: nat)
    requires from <= |Stages|
    requires forall i :: 0 <= i < |Stages| ==> ResultAt(true, run1, i) == ResultAt(true, run2, i)
    ensures FirstFatal(true, run1, from) == FirstFatal(true, run2, from)
    decreases |Stages| - from
  {
    if from < |Stages| {
      SameFirstFatal(run1, run2, from + 1);
    }
  }
}
