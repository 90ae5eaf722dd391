/** `ProteinMPNNGenerator` and `generate_sequences_for_multiple_structures`
    of src/protein_mpnn_generator.py: constructor validation, the
    command-line and HTTP back ends, the parser of the FASTA file the tool
    writes, the `mpnn_{i}` ids, and the multi-structure run that skips the
    structures that fail. The subprocess and the HTTP request are oracles
    the caller passes in; the DataFrames are sequences of `Design`
    records. */
module MpnnGenerator {
  import opened Wrappers
  import opened Seqs
  import opened Text
  import opened Json

  /** What the generator raises. */
  datatype Failure =
    | MissingExecutable            // ValueError of line 43
    | MissingApiKey                // ValueError of line 183
    | NoFastaOutput(path: string)  // FileNotFoundError of line 137
    | ProcessFailed(stderr: string) // CalledProcessError re-raised at line 168
    | RequestFailed(message: string) // a RequestException re-raised at line 228
    | HttpError(status: int)       // `raise_for_status` at line 206
    | MalformedReply               // a reply body `.get` or `enumerate` cannot walk

  datatype Generator = Generator(useApi: bool, apiKey: Option<string>, mpnnPath: Option<string>)

  /** Lines 18-46. `onPath` is what `shutil.which("protein_mpnn")` returns.
      In command-line mode a path must be given or found; in API mode no
      path is looked up and the key is only checked when used. */
  function NewGenerator(mpnnPath: Option<string>, useApi: bool, apiKey: Option<string>, onPath: Option<string>)
    : (r: Result<Generator, Failure>)
    ensures r.Err? <==> !useApi && !Given(mpnnPath) && !Given(onPath)
    ensures r.Err? ==> r.error == MissingExecutable
    ensures r.Ok? ==> r.value.useApi == useApi && r.value.apiKey == apiKey
    ensures r.Ok? && !useApi ==>
      Given(r.value.mpnnPath) && r.value.mpnnPath == if Given(mpnnPath) then mpnnPath else onPath
    ensures r.Ok? && useApi ==> r.value.mpnnPath.None?
  {
    if useApi then Ok(Generator(useApi, apiKey, None))
    else
      var path := if Given(mpnnPath) then mpnnPath else onPath;
      if !Given(path) then Err(MissingExecutable)
      else Ok(Generator(useApi, apiKey, path))
  }

  /** `",".join(map(str, fixed_positions))`. */
  function PositionsText(fixed: seq<int>): string {
    Join(seq(|fixed|, i requires 0 <= i < |fixed| => IntToString(fixed[i])), ',')
  }

  /** Lines 114-124: the command line; `tempText` is `str(sampling_temp)`. */
  function Command(path: string, pdbName: string, numDesigns: int, tempText: string, modelName: string,
                   outFolder: string, fixed: seq<int>): seq<string>
  {
    [path, "--pdb-path", pdbName, "--num-seq-per-target", IntToString(numDesigns),
     "--sampling-temp", tempText, "--model-name", modelName, "--out-folder", outFolder]
    + if fixed != [] then ["--fixed_positions", PositionsText(fixed)] else []
  }

  /** The eleven leading arguments are always there, in a fixed order; the
      fixed positions add two more exactly when the list is non-empty. */
  lemma CommandLayout(path: string, pdbName: string, numDesigns: int, tempText: string, modelName: string,
                      outFolder: string, fixed: seq<int>)
    ensures var cmd := Command(path, pdbName, numDesigns, tempText, modelName, outFolder, fixed);
      && |cmd| == (if fixed == [] then 11 else 13)
      && cmd[..11] == [path, "--pdb-path", pdbName, "--num-seq-per-target", IntToString(numDesigns),
                       "--sampling-temp", tempText, "--model-name", modelName, "--out-folder", outFolder]
      && IntText(cmd[4]) && ParseInt(cmd[4]) == numDesigns
      && (fixed != [] ==> cmd[11..] == ["--fixed_positions", PositionsText(fixed)])
  {
    IntToStringRoundTrip(numDesigns);
    var base := [path, "--pdb-path", pdbName, "--num-seq-per-target", IntToString(numDesigns),
                 "--sampling-temp", tempText, "--model-name", modelName, "--out-folder", outFolder];
    var cmd := Command(path, pdbName, numDesigns, tempText, modelName, outFolder, fixed);
    assert cmd[..11] == base;
  }

  /** The fixed-positions argument splits on commas into one integer text
      per position, read back as the positions themselves. */
  lemma PositionsRoundTrip(fixed: seq<int>)
    requires fixed != []
    ensures var pieces := Split(PositionsText(fixed), ',');
      && |pieces| == |fixed|
      && forall k | 0 <= k < |fixed| :: IntText(pieces[k]) && ParseInt(pieces[k]) == fixed[k]
  {
    var texts := seq(|fixed|, i requires 0 <= i < |fixed| => IntToString(fixed[i]));
    forall k | 0 <= k < |fixed| ensures ',' !in texts[k] && IntText(texts[k]) && ParseInt(texts[k]) == fixed[k] {
      IntToStringRoundTrip(fixed[k]);
    }
    SplitJoin(texts, ',');
  }

  /** The parser's state: the sequences closed so far and the record being
      read. */
  datatype ParseState = ParseState(closed: seq<string>, current: string)

  predicate IsHeader(line: string) {
    StartsWith(line, ">")
  }

  /** Lines 144-149 for one line: a header closes a non-empty current
      record; any other line is stripped and appended to it. */
  function Step(st: ParseState, line: string): ParseState {
    if IsHeader(line) then
      if st.current != [] then ParseState(st.closed + [st.current], []) else ParseState(st.closed, [])
    else ParseState(st.closed, st.current + Strip(line))
  }

  /** The state after the given lines. No closed record is empty. */
  function Scan(lines: seq<string>): (st: ParseState)
    ensures forall k | 0 <= k < |st.closed| :: st.closed[k] != []
  {
    if lines == [] then ParseState([], [])
    else Step(Scan(lines[..|lines| - 1]), lines[|lines| - 1])
  }

  /** Lines 140-151: the records of the file, the last one closed at the
      end of the file when it is not empty. */
  function ParseFasta(lines: seq<string>): (seqs: seq<string>)
    ensures forall k | 0 <= k < |seqs| :: seqs[k] != []
  {
    var st := Scan(lines);
    if st.current != [] then st.closed + [st.current] else st.closed
  }

  /** The loop of lines 140-151. */
  method ParseLines(lines: seq<string>) returns (sequences: seq<string>)
    ensures sequences == ParseFasta(lines)
  {
    sequences := [];
    var current := "";
    for i := 0 to |lines|
      invariant ParseState(sequences, current) == Scan(lines[..i])
    {
      var line := lines[i];
      assert lines[..i + 1][..i] == lines[..i];
      if StartsWith(line, ">") {
        if current != "" {
          sequences := sequences + [current];
          current := "";
        }
      } else {
        current := current + Strip(line);
      }
    }
    assert lines[..|lines|] == lines;
    if current != "" {
      sequences := sequences + [current];
    }
  }

  /** The stripped text of the non-header lines, in order. */
  function Bodies(lines: seq<string>): string {
    if lines == [] then []
    else
      var last := lines[|lines| - 1];
      Bodies(lines[..|lines| - 1]) + if IsHeader(last) then [] else Strip(last)
  }

  lemma {:induction false} ScanKeepsText(lines: seq<string>)
    ensures Flatten(Scan(lines).closed) + Scan(lines).current == Bodies(lines)
  {
    if lines != [] {
      var front := lines[..|lines| - 1];
      ScanKeepsText(front);
      var st := Scan(front);
      if IsHeader(lines[|lines| - 1]) && st.current != [] {
        var closed := st.closed + [st.current];
        assert closed[..|closed| - 1] == st.closed;
      }
    }
  }

  /** Parsing loses no sequence text and invents none: the records, one
      after the other, are the stripped non-header lines. */
  lemma ParseKeepsText(lines: seq<string>)
    ensures Flatten(ParseFasta(lines)) == Bodies(lines)
  {
    ScanKeepsText(lines);
    var st := Scan(lines);
    if st.current != [] {
      var all := st.closed + [st.current];
      assert all[..|all| - 1] == st.closed;
    }
  }

  lemma {:induction false} ScanHeaderless(lines: seq<string>)
    requires forall i | 0 <= i < |lines| :: !IsHeader(lines[i])
    ensures Scan(lines) == ParseState([], Bodies(lines))
  {
    if lines != [] {
      ScanHeaderless(lines[..|lines| - 1]);
    }
  }

  /** Text with no header at all still forms one record, when it is not
      blank. */
  lemma HeaderlessText(lines: seq<string>)
    requires forall i | 0 <= i < |lines| :: !IsHeader(lines[i])
    ensures ParseFasta(lines) == if Bodies(lines) != [] then [Bodies(lines)] else []
  {
    ScanHeaderless(lines);
  }

  /** A FASTA text with one header line and one sequence line per
      record. */
  function Render(names: seq<string>, seqs: seq<string>): (lines: seq<string>)
    requires |names| == |seqs|
    ensures |lines| == 2 * |seqs|
  {
    if seqs == [] then []
    else
      var n := |seqs| - 1;
      Render(names[..n], seqs[..n]) + [">" + names[n], seqs[n]]
  }

  predicate PlainSequence(s: string) {
    s != [] && Stripped(s) && !StartsWith(s, ">")
  }

  lemma {:induction false} ScanRendered(names: seq<string>, seqs: seq<string>)
    requires |names| == |seqs| && seqs != []
    requires forall k | 0 <= k < |seqs| :: PlainSequence(seqs[k])
    ensures Scan(Render(names, seqs)) == ParseState(seqs[..|seqs| - 1], seqs[|seqs| - 1])
  {
    var n := |seqs| - 1;
    var front := Render(names[..n], seqs[..n]);
    var header := ">" + names[n];
    assert IsHeader(header) by {
      assert header[..1] == ">";
    }
    ScanTwoLines(front, header, seqs[n]);
    StripStripped(seqs[n]);
    if n == 0 {
      assert Scan(front) == ParseState([], []);
    } else {
      var init := seqs[..n];
      forall k | 0 <= k < n ensures PlainSequence(init[k]) {
        assert init[k] == seqs[k];
      }
      ScanRendered(names[..n], init);
      assert PlainSequence(init[n - 1]);
      FrontLast(init);
    }
  }

  /** The scan of two more lines. */
  lemma ScanTwoLines(front: seq<string>, a: string, b: string)
    ensures Scan(front + [a, b]) == Step(Step(Scan(front), a), b)
  {
    var lines := front + [a, b];
    assert lines[..|lines| - 1] == front + [a];
    assert (front + [a])[..|front|] == front;
  }

  /** Parsing the FASTA text of some records gives their sequences back. */
  lemma ParseRendered(names: seq<string>, seqs: seq<string>)
    requires |names| == |seqs|
    requires forall k | 0 <= k < |seqs| :: PlainSequence(seqs[k])
    ensures ParseFasta(Render(names, seqs)) == seqs
  {
    if seqs != [] {
      ScanRendered(names, seqs);
      var n := |seqs| - 1;
      LastPlain(seqs);
      ParseClosesLast(Render(names, seqs), seqs[..n], seqs[n]);
    }
  }

  lemma LastPlain(seqs: seq<string>)
    requires seqs != [] && PlainSequence(seqs[|seqs| - 1])
    ensures seqs[|seqs| - 1] != [] && seqs[..|seqs| - 1] + [seqs[|seqs| - 1]] == seqs
  {
  }

  /** The record still open at the end of the file is the last one. */
  lemma ParseClosesLast(lines: seq<string>, closed: seq<string>, current: string)
    requires Scan(lines) == ParseState(closed, current) && current != []
    ensures ParseFasta(lines) == closed + [current]
  {
  }

  /** Lines 154 and 213: `mpnn_1`, ..., `mpnn_n`. */
  const IdPrefix := "mpnn_"

  /** A row of the DataFrame the generator returns. */
  datatype Design = Design(id: string, sequence: Value, pdbFile: string, temp: real, model: string)

  /** The rows for the given sequences: the `i`-th sequence with the
      `i`-th id and the run's parameters. */
  function Designs(seqs: seq<Value>, pdbFile: string, temp: real, model: string): (rows: seq<Design>)
    ensures |rows| == |seqs|
    ensures forall i | 0 <= i < |rows| ::
      rows[i] == Design(NumberedIds(IdPrefix, |seqs|)[i], seqs[i], pdbFile, temp, model)
  {
    seq(|seqs|, i requires 0 <= i < |seqs| => Design(NumberedIds(IdPrefix, |seqs|)[i], seqs[i], pdbFile, temp, model))
  }

  function AsValues(seqs: seq<string>): (r: seq<Value>)
    ensures |r| == |seqs| && forall i | 0 <= i < |seqs| :: r[i] == Str(seqs[i])
  {
    seq(|seqs|, i requires 0 <= i < |seqs| => Str(seqs[i]))
  }

  /** What the subprocess did: its exit code and its standard error. */
  datatype Exit = Exit(code: int, stderr: string)

  function FastaPath(outFolder: string, pdbStem: string): string {
    outFolder + "/seqs/" + pdbStem + ".fa"
  }

  /** How the command-line run ends: a non-zero exit re-raises with its
      standard error, a missing FASTA file raises `FileNotFoundError`,
      otherwise one row per parsed sequence. */
  function CliResult(exit: Exit, fasta: Option<seq<string>>, outFolder: string, pdbStem: string,
                     temp: real, modelName: string): (r: Result<seq<Design>, Failure>)
    ensures exit.code != 0 ==> r == Err(ProcessFailed(exit.stderr))
    ensures exit.code == 0 && fasta.None? ==> r == Err(NoFastaOutput(FastaPath(outFolder, pdbStem)))
    ensures r.Ok? <==> exit.code == 0 && fasta.Some?
    ensures r.Ok? ==> r.value == Designs(AsValues(ParseFasta(fasta.value)), pdbStem, temp, modelName)
  {
    if exit.code != 0 then Err(ProcessFailed(exit.stderr))
    else if fasta.None? then Err(NoFastaOutput(FastaPath(outFolder, pdbStem)))
    else Ok(Designs(AsValues(ParseFasta(fasta.value)), pdbStem, temp, modelName))
  }

  /** Lines 84-168. `run` is the subprocess, `fasta` the lines of the
      output FASTA file when it exists, `tempText` the text `str` gives
      for the temperature. */
  method GenerateViaCli(gen: Generator, pdbName: string, pdbStem: string, numDesigns: int,
                        temp: real, tempText: string, fixed: seq<int>, modelName: string, outFolder: string,
                        run: seq<string> -> Exit, fasta: Option<seq<string>>)
    returns (r: Result<seq<Design>, Failure>)
    requires !gen.useApi && Given(gen.mpnnPath)
    ensures r == CliResult(run(Command(gen.mpnnPath.value, pdbName, numDesigns, tempText, modelName, outFolder, fixed)),
                           fasta, outFolder, pdbStem, temp, modelName)
  {
    var cmd := Command(gen.mpnnPath.value, pdbName, numDesigns, tempText, modelName, outFolder, fixed);
    var exit := run(cmd);
    if exit.code != 0 {
      return Err(ProcessFailed(exit.stderr));
    }
    if fasta.None? {
      return Err(NoFastaOutput(FastaPath(outFolder, pdbStem)));
    }
    var sequences := ParseLines(fasta.value);
    r := Ok(Designs(AsValues(sequences), pdbStem, temp, modelName));
  }

  /** Lines 194-202: the request body. */
  function Payload(pdbContent: string, numDesigns: int, temp: real, modelName: string, fixed: seq<int>)
    : map<string, Value>
  {
    var base := map["pdb_content" := Str(pdbContent), "num_designs" := Int(numDesigns),
                    "sampling_temp" := Real(temp), "model_name" := Str(modelName)];
    if fixed != [] then base["fixed_positions" := Arr(seq(|fixed|, i requires 0 <= i < |fixed| => Int(fixed[i])))]
    else base
  }

  /** The four fields are always sent; `fixed_positions` exactly when the
      list is non-empty, and then with the positions in order. */
  lemma PayloadFields(pdbContent: string, numDesigns: int, temp: real, modelName: string, fixed: seq<int>)
    ensures var p := Payload(pdbContent, numDesigns, temp, modelName, fixed);
      && p.Keys == {"pdb_content", "num_designs", "sampling_temp", "model_name"}
                   + (if fixed != [] then {"fixed_positions"} else {})
      && p["pdb_content"] == Str(pdbContent) && p["num_designs"] == Int(numDesigns)
      && p["sampling_temp"] == Real(temp) && p["model_name"] == Str(modelName)
      && (fixed != [] ==>
            && p["fixed_positions"].Arr? && |p["fixed_positions"].items| == |fixed|
            && forall k | 0 <= k < |fixed| :: p["fixed_positions"].items[k] == Int(fixed[k]))
  {
  }

  /** The rows `result.get("sequences", [])` gives, or the reply cannot be
      walked. */
  function ReplySequences(body: Value): Result<seq<Value>, Failure> {
    if !body.Obj? then Err(MalformedReply)
    else if "sequences" !in body.fields then Ok([])
    else if body.fields["sequences"].Arr? then Ok(body.fields["sequences"].items)
    else Err(MalformedReply)
  }

  /** The loop of lines 210-218. */
  method CollectDesigns(seqs: seq<Value>, pdbFile: string, temp: real, model: string)
    returns (rows: seq<Design>)
    ensures rows == Designs(seqs, pdbFile, temp, model)
  {
    rows := [];
    var ids := NumberedIds(IdPrefix, |seqs|);
    for i := 0 to |seqs|
      invariant rows == Designs(seqs, pdbFile, temp, model)[..i]
    {
      rows := rows + [Design(IdPrefix + NatToString(i + 1), seqs[i], pdbFile, temp, model)];
    }
  }

  /** How the request ends: an exception or an error status raises, a
      reply that cannot be walked is malformed, otherwise one row per
      returned sequence. */
  function ApiResult(reply: Reply, pdbFile: string, temp: real, modelName: string): (r: Result<seq<Design>, Failure>)
    ensures reply.Raised? ==> r == Err(RequestFailed(reply.message))
    ensures reply.Response? && IsHttpError(reply.status) ==> r == Err(HttpError(reply.status))
    ensures r.Ok? <==> reply.Response? && !IsHttpError(reply.status) && ReplySequences(reply.body).Ok?
    ensures reply.Response? && !IsHttpError(reply.status) && !r.Ok? ==> r == Err(MalformedReply)
    ensures r.Ok? ==> r.value == Designs(ReplySequences(reply.body).value, pdbFile, temp, modelName)
  {
    match reply
    case Raised(message) => Err(RequestFailed(message))
    case Response(status, body, _) =>
      if IsHttpError(status) then Err(HttpError(status))
      else match ReplySequences(body)
        case Err(e) => Err(e)
        case Ok(seqs) => Ok(Designs(seqs, pdbFile, temp, modelName))
  }

  /** Lines 170-228. `post` is the HTTP request, given the authorization
      header and the body. */
  method GenerateViaApi(gen: Generator, pdbFile: string, pdbContent: string, numDesigns: int, temp: real,
                        fixed: seq<int>, modelName: string, post: (string, map<string, Value>) -> Reply)
    returns (r: Result<seq<Design>, Failure>)
    ensures !Given(gen.apiKey) ==> r == Err(MissingApiKey)
    ensures Given(gen.apiKey) ==>
      r == ApiResult(post("Bearer " + gen.apiKey.value, Payload(pdbContent, numDesigns, temp, modelName, fixed)),
                     pdbFile, temp, modelName)
  {
    if !Given(gen.apiKey) {
      return Err(MissingApiKey);
    }
    var reply := post("Bearer " + gen.apiKey.value, Payload(pdbContent, numDesigns, temp, modelName, fixed));
    if reply.Raised? {
      return Err(RequestFailed(reply.message));
    }
    if IsHttpError(reply.status) {
      return Err(HttpError(reply.status));
    }
    var found := ReplySequences(reply.body);
    if found.Err? {
      return Err(found.error);
    }
    var rows := CollectDesigns(found.value, pdbFile, temp, modelName);
    r := Ok(rows);
  }

  /** A successful reply without `sequences` gives no rows. */
  lemma NoSequencesNoRows(fields: map<string, Value>, pdbFile: string, temp: real, model: string)
    requires "sequences" !in fields
    ensures ReplySequences(Obj(fields)) == Ok([])
    ensures Designs([], pdbFile, temp, model) == []
  {
  }

  /** The outcomes, in input order, of the structures that succeeded. */
  function Successes(outcomes: seq<Result<seq<Design>, Failure>>): (frames: seq<seq<Design>>)
    ensures |frames| <= |outcomes|
  {
    if outcomes == [] then []
    else
      var n := |outcomes| - 1;
      Successes(outcomes[..n]) + if outcomes[n].Ok? then [outcomes[n].value] else []
  }

  /** Lines 240-261. `attempt` is `generate_sequences` on one structure. */
  method GenerateForStructures(pdbFiles: seq<string>, attempt: string -> Result<seq<Design>, Failure>)
    returns (all: seq<Design>)
    ensures all == Flatten(Successes(seq(|pdbFiles|, i requires 0 <= i < |pdbFiles| => attempt(pdbFiles[i]))))
  {
    ghost var outcomes := seq(|pdbFiles|, i requires 0 <= i < |pdbFiles| => attempt(pdbFiles[i]));
    var frames: seq<seq<Design>> := [];
    for i := 0 to |pdbFiles|
      invariant frames == Successes(outcomes[..i])
    {
      assert outcomes[..i + 1][..i] == outcomes[..i];
      var outcome := attempt(pdbFiles[i]);
      if outcome.Ok? {
        frames := frames + [outcome.value];
      }
    }
    assert outcomes[..|pdbFiles|] == outcomes;
    if frames == [] {
      return [];
    }
    // `pd.concat(frames, ignore_index=True)`
    all := Flatten(frames);
  }

  /** When every structure fails the result is empty. */
  lemma {:induction false} AllFailedEmpty(outcomes: seq<Result<seq<Design>, Failure>>)
    requires forall i | 0 <= i < |outcomes| :: outcomes[i].Err?
    ensures Successes(outcomes) == [] && Flatten(Successes(outcomes)) == []
  {
    if outcomes != [] {
      AllFailedEmpty(outcomes[..|outcomes| - 1]);
    }
  }

  /** When every structure succeeds, their rows follow one another in
      input order. */
  lemma {:induction false} AllSucceededInOrder(outcomes: seq<Result<seq<Design>, Failure>>)
    requires forall i | 0 <= i < |outcomes| :: outcomes[i].Ok?
    ensures Successes(outcomes) == seq(|outcomes|, i requires 0 <= i < |outcomes| => outcomes[i].value)
  {
    if outcomes != [] {
      var n := |outcomes| - 1;
      AllSucceededInOrder(outcomes[..n]);
    }
  }

  /** A failing structure contributes nothing and does not stop the
      others. */
  lemma FailureSkipped(outcomes: seq<Result<seq<Design>, Failure>>, failed: Failure,
                       more: seq<Result<seq<Design>, Failure>>)
    ensures Successes(outcomes + [Err(failed)] + more) == Successes(outcomes + more)
    decreases |more|
  {
    if more == [] {
      var all := outcomes + [Err(failed)];
      assert all[..|all| - 1] == outcomes;
      assert outcomes + [Err(failed)] + more == all;
      assert outcomes + more == outcomes;
    } else {
      var m := |more| - 1;
      var all := outcomes + [Err(failed)] + more;
      assert all[..|all| - 1] == outcomes + [Err(failed)] + more[..m];
      assert (outcomes + more)[..|outcomes + more| - 1] == outcomes + more[..m];
      FailureSkipped(outcomes, failed, more[..m]);
    }
  }

  /** Lines 48-82: the back end is chosen by the mode. */
  method GenerateSequences(gen: Generator, pdbFile: string, pdbName: string, pdbStem: string, pdbContent: string,
                           numDesigns: int, temp: real, tempText: string, fixed: seq<int>, modelName: string,
                           outFolder: string, run: seq<string> -> Exit, fasta: Option<seq<string>>,
                           post: (string, map<string, Value>) -> Reply)
    returns (r: Result<seq<Design>, Failure>)
    requires !gen.useApi ==> Given(gen.mpnnPath)
    ensures gen.useApi && !Given(gen.apiKey) ==> r == Err(MissingApiKey)
    ensures gen.useApi && Given(gen.apiKey) ==>
      r == ApiResult(post("Bearer " + gen.apiKey.value, Payload(pdbContent, numDesigns, temp, modelName, fixed)),
                     pdbFile, temp, modelName)
    ensures !gen.useApi ==>
      r == CliResult(run(Command(gen.mpnnPath.value, pdbName, numDesigns, tempText, modelName, outFolder, fixed)),
                     fasta, outFolder, pdbStem, temp, modelName)
  {
    if gen.useApi {
      r := GenerateViaApi(gen, pdbFile, pdbContent, numDesigns, temp, fixed, modelName, post);
    } else {
      r := GenerateViaCli(gen, pdbName, pdbStem, numDesigns, temp, tempText, fixed, modelName, outFolder, run, fasta);
    }
  }
}
