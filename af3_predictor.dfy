/** src/alphafold3_predictor.py: the local AlphaFold3 runner. Construction
    looks the tool up but only warns when it is missing; prediction writes
    the input JSON, runs the tool, and reports success or failure as a
    record; a batch pairs sequences with ids, defaulting them to `seq_1`,
    `seq_2`, and so on. The subprocess, the directory listing and the
    `shutil.which` lookup are oracles. */
module Af3Predictor {
  import opened Wrappers
  import opened Text
  import opened Json

  /** Lines 31-33. */
  datatype Predictor = Predictor(alphafold3Path: Option<string>, modelParamsDir: Option<string>, useApi: bool)

  /** Lines 17-43: `onPath` is what `shutil.which("alphafold3")` returns.
      A missing tool only produces a warning. */
  function NewPredictor(alphafold3Path: Option<string>, modelParamsDir: Option<string>, useApi: bool,
                        onPath: Option<string>): (r: (Predictor, bool))
    ensures r.0.modelParamsDir == modelParamsDir && r.0.useApi == useApi
    ensures r.1 <==> !Given(alphafold3Path) && !Given(onPath)
    ensures Given(alphafold3Path) ==> r.0.alphafold3Path == alphafold3Path
    ensures !Given(alphafold3Path) && Given(onPath) ==> r.0.alphafold3Path == onPath
    ensures r.1 ==> r.0.alphafold3Path == alphafold3Path && !Given(r.0.alphafold3Path)
  {
    if Given(alphafold3Path) then (Predictor(alphafold3Path, modelParamsDir, useApi), false)
    else if Given(onPath) then (Predictor(onPath, modelParamsDir, useApi), false)
    else (Predictor(alphafold3Path, modelParamsDir, useApi), true)
  }

  /** Lines 82-90: one protein molecule. */
  function InputJson(sequence: string, sequenceId: string): Value {
    Obj(map["molecules" := Arr([Obj(map["name" := Str(sequenceId),
                                         "sequence" := Str(sequence),
                                         "type" := Str("protein")])])])
  }

  /** The input holds exactly one molecule, a protein named by the id with
      the given sequence. */
  lemma OneMolecule(sequence: string, sequenceId: string)
    ensures var j := InputJson(sequence, sequenceId);
      && j.Obj? && j.fields.Keys == {"molecules"}
      && j.fields["molecules"].Arr? && |j.fields["molecules"].items| == 1
      && var m := j.fields["molecules"].items[0];
      && m.Obj? && m.fields.Keys == {"name", "sequence", "type"}
      && m.fields["name"] == Str(sequenceId)
      && m.fields["sequence"] == Str(sequence)
      && m.fields["type"] == Str("protein")
  {
  }

  function JsonPath(outputDir: string, sequenceId: string): string {
    outputDir + "/input_" + sequenceId + ".json"
  }

  /** Line 112: the structure path assumed when nothing is found. */
  function DefaultPdbPath(outputDir: string, sequenceId: string): string {
    outputDir + "/predicted_" + sequenceId + ".pdb"
  }

  /** Lines 115-120. */
  function Command(toolPath: string, jsonFile: string, outputDir: string,
                   modelParamsDir: Option<string>): seq<string> {
    ["python", toolPath, "--json_path", jsonFile, "--output_dir", outputDir,
     "--model_params_dir", if Given(modelParamsDir) then modelParamsDir.value else ""]
  }

  /** The command always passes a parameter directory, empty when none was
      configured, and the input file just written. */
  lemma CommandArguments(toolPath: string, jsonFile: string, outputDir: string,
                         modelParamsDir: Option<string>)
    ensures var cmd := Command(toolPath, jsonFile, outputDir, modelParamsDir);
      && |cmd| == 8 && cmd[1] == toolPath
      && cmd[2] == "--json_path" && cmd[3] == jsonFile
      && cmd[6] == "--model_params_dir"
      && (modelParamsDir.None? ==> cmd[7] == "")
      && (Given(modelParamsDir) ==> cmd[7] == modelParamsDir.value)
  {
  }

  /** What the tool run returned: its exit code and captured output. */
  datatype Process = Process(code: int, stdout: string, stderr: string)

  /** The ValueError of lines 79 and 106. */
  datatype Failure = MissingTool

  /** Lines 98-150. `run` runs a command, `glob` lists the files of the
      output directory matching `*{id}*.pdb`, and `describe` is the text of
      the CalledProcessError. A failed run is reported, not raised. */
  function PredictFromJson(p: Predictor, sequenceId: string, outputDir: string,
                           run: seq<string> -> Process, glob: string -> seq<string>,
                           describe: (seq<string>, int) -> string): Result<Value, Failure>
  {
    if !Given(p.alphafold3Path) then Err(MissingTool)
    else
      var jsonFile := JsonPath(outputDir, sequenceId);
      var cmd := Command(p.alphafold3Path.value, jsonFile, outputDir, p.modelParamsDir);
      var proc := run(cmd);
      if proc.code != 0 then
        Ok(Obj(map["sequence_id" := Str(sequenceId), "status" := Str("error"),
                   "error" := Str(describe(cmd, proc.code)), "stderr" := Str(proc.stderr)]))
      else
        var found := glob("*" + sequenceId + "*.pdb");
        var pdbFile := if found != [] then found[0] else DefaultPdbPath(outputDir, sequenceId);
        Ok(Obj(map["sequence_id" := Str(sequenceId), "pdb_file" := Str(pdbFile),
                   "json_file" := Str(jsonFile), "status" := Str("success"),
                   "output" := Str(proc.stdout)]))
  }

  /** Without a tool path prediction raises; otherwise the record keeps the
      id, says `error` exactly when the run failed, and on success names the
      first matching structure file, or the default path when there is
      none. */
  lemma PredictionRecord(p: Predictor, sequenceId: string, outputDir: string,
                         run: seq<string> -> Process, glob: string -> seq<string>,
                         describe: (seq<string>, int) -> string)
    ensures var r := PredictFromJson(p, sequenceId, outputDir, run, glob, describe);
      && (r.Err? <==> !Given(p.alphafold3Path))
      && (r.Ok? ==>
            var cmd := Command(p.alphafold3Path.value, JsonPath(outputDir, sequenceId),
                               outputDir, p.modelParamsDir);
            var found := glob("*" + sequenceId + "*.pdb");
            && r.value.Obj?
            && r.value.fields["sequence_id"] == Str(sequenceId)
            && (r.value.fields["status"] == Str("error") <==> run(cmd).code != 0)
            && (run(cmd).code != 0 ==> r.value.fields["stderr"] == Str(run(cmd).stderr))
            && (run(cmd).code == 0 && found != [] ==> r.value.fields["pdb_file"] == Str(found[0]))
            && (run(cmd).code == 0 && found == [] ==>
                  r.value.fields["pdb_file"] == Str(DefaultPdbPath(outputDir, sequenceId))))
  {
  }

  /** Lines 45-96: a truthy custom input is used as given; otherwise the
      one-molecule input is built. Returned with the prediction is the
      input JSON written, if any. */
  function PredictStructure(p: Predictor, sequence: string, sequenceId: string, outputDir: string,
                            jsonInput: Option<Value>, run: seq<string> -> Process,
                            glob: string -> seq<string>, describe: (seq<string>, int) -> string)
    : (r: (Result<Value, Failure>, Option<Value>))
    ensures r.0 == PredictFromJson(p, sequenceId, outputDir, run, glob, describe)
    ensures r.1.Some? <==> Given(p.alphafold3Path)
    ensures r.1.Some? ==>
      r.1.value == if jsonInput.Some? && Truthy(jsonInput.value) then jsonInput.value
                   else InputJson(sequence, sequenceId)
  {
    var input := if jsonInput.Some? && Truthy(jsonInput.value) then jsonInput.value
                 else InputJson(sequence, sequenceId);
    var written := if Given(p.alphafold3Path) then Some(input) else None;
    (PredictFromJson(p, sequenceId, outputDir, run, glob, describe), written)
  }

  /** Line 170: the default ids `seq_1`, `seq_2`, .... */
  const DefaultIdPrefix := "seq_"

  /** The ids a batch uses: the given ones, or one default id per
      sequence. */
  function BatchIds(sequences: seq<string>, sequenceIds: Option<seq<string>>): (ids: seq<string>)
    ensures sequenceIds.Some? ==> ids == sequenceIds.value
    ensures sequenceIds.None? ==> |ids| == |sequences|
  {
    if sequenceIds.Some? then sequenceIds.value else NumberedIds(DefaultIdPrefix, |sequences|)
  }

  /** Lines 152-181: one prediction per (sequence, id) pair, in order,
      stopping at the shorter list. The first prediction that raises ends
      the batch with that error; the CSV written afterwards is not part of
      this model. Returned with the predictions are the input files
      written, one per pair: prediction `i` runs on `sequences[i]` under
      `ids[i]`. */
  method PredictMultiple(p: Predictor, sequences: seq<string>, sequenceIds: Option<seq<string>>,
                         outputDir: string, run: seq<string> -> Process,
                         glob: string -> seq<string>, describe: (seq<string>, int) -> string)
    returns (r: Result<seq<Value>, Failure>, inputs: seq<Value>)
    ensures var n := Min(|sequences|, |BatchIds(sequences, sequenceIds)|);
      r.Err? <==> n > 0 && !Given(p.alphafold3Path)
    ensures r.Err? ==> inputs == []
    ensures var ids := BatchIds(sequences, sequenceIds);
      var n := Min(|sequences|, |ids|);
      r.Ok? ==>
        && |r.value| == n && |inputs| == n
        && (forall i | 0 <= i < n :: Ok(r.value[i]) == PredictFromJson(p, ids[i], outputDir, run, glob, describe))
        && (forall i | 0 <= i < n :: inputs[i] == InputJson(sequences[i], ids[i]))
  {
    var ids := BatchIds(sequences, sequenceIds);
    var n := Min(|sequences|, |ids|);
    var results: seq<Value> := [];
    inputs := [];
    for i := 0 to n
      invariant |results| == i && |inputs| == i
      invariant forall k | 0 <= k < i :: Ok(results[k]) == PredictFromJson(p, ids[k], outputDir, run, glob, describe)
      invariant forall k | 0 <= k < i :: inputs[k] == InputJson(sequences[k], ids[k])
      invariant i > 0 ==> Given(p.alphafold3Path)
    {
      var result, written := PredictPair(p, sequences[i], ids[i], outputDir, run, glob, describe);
      if result.Err? {
        return Err(result.error), [];
      }
      results := results + [result.value];
      inputs := inputs + [written.value];
    }
    r := Ok(results);
  }

  /** One pair of the batch: `predict_structure` without a custom input,
      with the input file it writes, if any. */
  method PredictPair(p: Predictor, sequence: string, sequenceId: string, outputDir: string,
                     run: seq<string> -> Process, glob: string -> seq<string>,
                     describe: (seq<string>, int) -> string)
    returns (result: Result<Value, Failure>, written: Option<Value>)
    ensures result == PredictFromJson(p, sequenceId, outputDir, run, glob, describe)
    ensures result.Err? <==> !Given(p.alphafold3Path)
    ensures written.Some? <==> Given(p.alphafold3Path)
    ensures written.Some? ==> written.value == InputJson(sequence, sequenceId)
  {
    var outcome := PredictStructure(p, sequence, sequenceId, outputDir, None, run, glob, describe);
    result, written := outcome.0, outcome.1;
  }
}
