/** src/rf_diffusion_generator.py: the RFdiffusion client of the hosted
    NVIDIA service. It builds the request payload with its optional keys,
    turns the reply into a result dictionary (with the path of the saved
    structure when the reply has one), derives the PD-L1 binder contig, and
    runs a list of contigs keeping one entry per contig. The HTTP request
    is an oracle; the clock reading that names the saved file is an
    input. */
module RfDiffusion {
  import opened Wrappers
  import opened Seqs
  import opened Text
  import opened Json

  /** Lines 17-30: the fields set once at construction. */
  datatype Generator = Generator(apiKey: string, baseUrl: string)

  const DefaultBaseUrl: string := "https://health.api.nvidia.com/v1/biology/ipd/rfdiffusion"

  /** Line 37. */
  const DefaultSteps: int := 50

  /** Line 106. */
  const DefaultBinderLength: int := 50

  /** Lines 27-30. */
  function Headers(gen: Generator): map<string, string> {
    map["Authorization" := "Bearer " + gen.apiKey, "Content-Type" := "application/json"]
  }

  /** Line 74. */
  function Endpoint(gen: Generator): string {
    gen.baseUrl + "/generate"
  }

  function Ints(xs: seq<int>): (r: seq<Value>)
    ensures |r| == |xs| && forall k | 0 <= k < |xs| :: r[k] == Int(xs[k])
  {
    seq(|xs|, k requires 0 <= k < |xs| => Int(xs[k]))
  }

  /** Lines 55-69: `templateText` is the content of the template file,
      read only when a template path is given. */
  function Payload(contigs: string, template: Option<string>, templateText: string,
                   hotspots: seq<int>, steps: int): map<string, Value>
  {
    var base := map["contigs" := Str(contigs), "diffusion_steps" := Int(steps)];
    var withTemplate := if Given(template) then base["input_pdb" := Str(templateText)] else base;
    if hotspots != [] then withTemplate["hotspot_res" := Arr(Ints(hotspots))] else withTemplate
  }

  /** The payload always has the contigs and the step count; it has the
      template text exactly when a template path was given, and the
      hotspots exactly when the list is not empty. */
  lemma PayloadKeys(contigs: string, template: Option<string>, templateText: string,
                    hotspots: seq<int>, steps: int)
    ensures var p := Payload(contigs, template, templateText, hotspots, steps);
      && p.Keys == {"contigs", "diffusion_steps"}
                   + (if Given(template) then {"input_pdb"} else {})
                   + (if hotspots != [] then {"hotspot_res"} else {})
      && p["contigs"] == Str(contigs) && p["diffusion_steps"] == Int(steps)
      && (Given(template) ==> p["input_pdb"] == Str(templateText))
      && (hotspots != [] ==> p["hotspot_res"] == Arr(Ints(hotspots)))
  {
  }

  /** What `generate_structure` raises. */
  datatype Failure =
    | RequestRaised(message: string) // a RequestException, logged and re-raised
    | HttpStatus(status: int)        // `raise_for_status`
    | PdbNotText                     // `write` of a `pdb` value that is not a string
    | NotIterable                    // line 89: `in` on a null, boolean or number body
    | NotSubscriptable               // line 91: `result["pdb"]` on a list or a string
    | TemplateUnreadable(path: string) // line 62: `open` of a template that cannot be read

  /** Line 84: the path the reply body is dumped to. */
  function JsonPath(outputDir: string, clock: int): string {
    outputDir + "/rfdiffusion_" + IntToString(clock) + ".json"
  }

  /** Line 90: the path the structure is saved under. */
  function PdbPath(outputDir: string, clock: int): string {
    outputDir + "/rfdiffusion_" + IntToString(clock) + ".pdb"
  }

  /** The bodies `"pdb" in result` (line 89) can be asked of: `in` raises
      TypeError on a null, a boolean or a number. */
  predicate Iterable(body: Value) {
    body.Obj? || body.Arr? || body.Str?
  }

  /** Line 89: `"pdb" in result` is a key test on an object, an item test
      on a list and a substring test on a string. */
  predicate HasPdb(body: Value)
    requires Iterable(body)
  {
    match body
    case Obj(fields) => "pdb" in fields
    case Arr(items) => Str("pdb") in items
    case Str(s) => Contains(s, "pdb")
  }

  /** Lines 91-92: the content the structure file is left with. The file
      is opened for writing before `result["pdb"]` is read and written, so
      a body that is not an object, or a `pdb` value that is not a string,
      leaves it empty. */
  function PdbText(body: Value): string {
    if body.Obj? && "pdb" in body.fields && body.fields["pdb"].Str? then body.fields["pdb"].s else ""
  }

  /** Lines 79-95 for one reply: the returned dictionary, with `pdb_file`
      added when the reply has a `pdb` key. */
  function Outcome(reply: Reply, outputDir: string, clock: int): Result<Value, Failure> {
    match reply
    case Raised(message) => Err(RequestRaised(message))
    case Response(status, body, _) =>
      if IsHttpError(status) then Err(HttpStatus(status))
      else if !Iterable(body) then Err(NotIterable)
      else if !HasPdb(body) then Ok(body)
      else if !body.Obj? then Err(NotSubscriptable)
      else if body.fields["pdb"].Str? then Ok(Obj(body.fields["pdb_file" := Str(PdbPath(outputDir, clock))]))
      else Err(PdbNotText)
  }

  /** The result is the reply body, with `pdb_file` set exactly when the
      body is an object with a `pdb` string; a failed request, an error
      status, a scalar body, a list or string holding `"pdb"`, and a `pdb`
      value that is not a string raise. */
  lemma OutcomeFields(reply: Reply, outputDir: string, clock: int)
    ensures Outcome(reply, outputDir, clock).Err? <==>
      || reply.Raised?
      || IsHttpError(reply.status)
      || !Iterable(reply.body)
      || (HasPdb(reply.body) && !(reply.body.Obj? && reply.body.fields["pdb"].Str?))
    ensures var r := Outcome(reply, outputDir, clock);
      r.Ok? ==> reply.Response? && (reply.body.Obj? <==> r.value.Obj?)
    ensures var r := Outcome(reply, outputDir, clock);
      r.Ok? && reply.body.Obj? ==>
        && ("pdb" in reply.body.fields ==>
              r.value.fields == reply.body.fields["pdb_file" := Str(PdbPath(outputDir, clock))])
        && ("pdb" !in reply.body.fields ==> r.value.fields == reply.body.fields)
    ensures var r := Outcome(reply, outputDir, clock);
      r.Ok? && !reply.body.Obj? ==> r.value == reply.body
  {
  }

  /** Lines 84-86: the reply body is dumped once the status check has
      passed, whatever follows. */
  function Dump(reply: Reply, outputDir: string, clock: int): (dumped: Option<(string, Value)>)
    ensures dumped.Some? <==> reply.Response? && !IsHttpError(reply.status)
    ensures dumped.Some? ==> dumped.value == (JsonPath(outputDir, clock), reply.body)
  {
    if reply.Response? && !IsHttpError(reply.status) then Some((JsonPath(outputDir, clock), reply.body))
    else None
  }

  /** Lines 89-92: the structure file is opened exactly when the dumped
      body answers `"pdb" in result` with true; it holds the `pdb` string,
      or nothing when reading or writing that value raises. */
  function Save(reply: Reply, outputDir: string, clock: int): (saved: Option<(string, string)>)
    ensures saved.Some? <==>
      Dump(reply, outputDir, clock).Some? && Iterable(reply.body) && HasPdb(reply.body)
    ensures saved.Some? ==> saved.value == (PdbPath(outputDir, clock), PdbText(reply.body))
  {
    if Dump(reply, outputDir, clock).Some? && Iterable(reply.body) && HasPdb(reply.body) then
      Some((PdbPath(outputDir, clock), PdbText(reply.body)))
    else None
  }

  /** A structure file is left with text exactly when the call succeeds
      on an object holding a non-empty `pdb` string; a call that raises
      after opening it leaves it empty. */
  lemma SavedTextMeansSuccess(reply: Reply, outputDir: string, clock: int)
    ensures var saved := Save(reply, outputDir, clock);
      var r := Outcome(reply, outputDir, clock);
      && (saved.Some? && r.Err? ==> r in {Err(NotSubscriptable), Err(PdbNotText)} && saved.value.1 == "")
      && (saved.Some? && r.Ok? ==> r.value.Obj? && r.value.fields["pdb_file"] == Str(saved.value.0)
                                   && reply.body.fields["pdb"] == Str(saved.value.1))
  {
  }

  /** Lines 32-101. `read` gives the content of a file, or None when it
      cannot be opened, and `post` the reply to a request with the given
      URL, authorization and payload. The files written are returned with
      their paths: the dumped reply body and the structure file. */
  method GenerateStructure(gen: Generator, contigs: string, template: Option<string>,
                           hotspots: seq<int>, steps: int, outputDir: string, clock: int,
                           read: string -> Option<string>,
                           post: (string, string, map<string, Value>) -> Reply)
    returns (r: Result<Value, Failure>, dumped: Option<(string, Value)>,
             saved: Option<(string, string)>)
    ensures Given(template) && read(template.value).None? ==>
      r == Err(TemplateUnreadable(template.value)) && dumped.None? && saved.None?
    ensures !Given(template) || read(template.value).Some? ==>
      var text := if Given(template) then read(template.value).value else "";
      var reply := post(Endpoint(gen), "Bearer " + gen.apiKey,
                        Payload(contigs, template, text, hotspots, steps));
      && r == Outcome(reply, outputDir, clock)
      && dumped == Dump(reply, outputDir, clock)
      && saved == Save(reply, outputDir, clock)
  {
    dumped, saved := None, None;
    var payload := map["contigs" := Str(contigs), "diffusion_steps" := Int(steps)];
    if template.Some? && template.value != [] {
      var pdbContent := read(template.value);
      if pdbContent.None? {
        return Err(TemplateUnreadable(template.value)), dumped, saved;
      }
      payload := payload["input_pdb" := Str(pdbContent.value)];
    }
    if hotspots != [] {
      payload := payload["hotspot_res" := Arr(Ints(hotspots))];
    }
    var reply := post(gen.baseUrl + "/generate", "Bearer " + gen.apiKey, payload);
    if reply.Raised? {
      return Err(RequestRaised(reply.message)), dumped, saved;
    }
    if 400 <= reply.status < 600 {
      return Err(HttpStatus(reply.status)), dumped, saved;
    }
    var result := reply.body;
    dumped := Some((outputDir + "/rfdiffusion_" + IntToString(clock) + ".json", result));
    if !(result.Obj? || result.Arr? || result.Str?) {
      return Err(NotIterable), dumped, saved;
    }
    var hasPdb := match result
      case Obj(fields) => "pdb" in fields
      case Arr(items) => Str("pdb") in items
      case Str(text) => Contains(text, "pdb");
    if hasPdb {
      var pdbFile := outputDir + "/rfdiffusion_" + IntToString(clock) + ".pdb";
      // the file is opened, then reading or writing `result["pdb"]` may raise
      if !result.Obj? {
        saved := Some((pdbFile, ""));
        return Err(NotSubscriptable), dumped, saved;
      }
      if !result.fields["pdb"].Str? {
        saved := Some((pdbFile, ""));
        return Err(PdbNotText), dumped, saved;
      }
      saved := Some((pdbFile, result.fields["pdb"].s));
      result := Obj(result.fields["pdb_file" := Str(pdbFile)]);
    }
    r := Ok(result);
  }

  /** Line 126: the target's residues 1-117, then a binder of the given
      length. */
  function BinderContig(binderLength: int): string {
    "A1-117/" + IntToString(binderLength)
  }

  /** The binder length reads back from the contig. */
  lemma BinderContigReadBack(binderLength: int)
    ensures var c := BinderContig(binderLength);
      c[..7] == "A1-117/" && IntText(c[7..]) && ParseInt(c[7..]) == binderLength
  {
    IntToStringRoundTrip(binderLength);
    assert BinderContig(binderLength)[7..] == IntToString(binderLength);
  }

  /** Lines 103-133: the PD-L1 file as template, the default step count. */
  method GeneratePdl1Binder(gen: Generator, pdl1Pdb: string, binderLength: int, hotspots: seq<int>,
                            outputDir: string, clock: int, read: string -> Option<string>,
                            post: (string, string, map<string, Value>) -> Reply)
    returns (r: Result<Value, Failure>, dumped: Option<(string, Value)>,
             saved: Option<(string, string)>)
    ensures pdl1Pdb != [] && read(pdl1Pdb).None? ==>
      r == Err(TemplateUnreadable(pdl1Pdb)) && dumped.None? && saved.None?
    ensures pdl1Pdb == [] || read(pdl1Pdb).Some? ==>
      var text := if pdl1Pdb != [] then read(pdl1Pdb).value else "";
      var reply := post(Endpoint(gen), "Bearer " + gen.apiKey,
                        Payload(BinderContig(binderLength), Some(pdl1Pdb), text, hotspots, DefaultSteps));
      && r == Outcome(reply, outputDir, clock)
      && dumped == Dump(reply, outputDir, clock)
      && saved == Save(reply, outputDir, clock)
  {
    r, dumped, saved := GenerateStructure(gen, "A1-117/" + IntToString(binderLength), Some(pdl1Pdb),
                                  hotspots, 50, outputDir, clock, read, post);
  }

  /** One entry of the batch list: the result, or `{"error": str(e)}`;
      `describe` is the text of the exception. */
  function Entry(r: Result<Value, Failure>, describe: Failure -> string): Value {
    match r
    case Ok(v) => v
    case Err(f) => Obj(map["error" := Str(describe(f))])
  }

  /** The reply to contig `contigs` of a batch, sent without template or
      hotspots and with the default step count. */
  function BatchReply(gen: Generator, contigs: string,
                      post: (string, string, map<string, Value>) -> Reply): Reply {
    post(Endpoint(gen), "Bearer " + gen.apiKey, Payload(contigs, None, "", [], DefaultSteps))
  }

  /** The outcome of contig `i` of a batch, with clock reading `clocks(i)`. */
  function BatchOutcome(gen: Generator, contigs: string, outputDir: string, clock: int,
                        post: (string, string, map<string, Value>) -> Reply): Result<Value, Failure> {
    Outcome(BatchReply(gen, contigs, post), outputDir, clock)
  }

  /** Lines 159-162: one call of the batch, with its outcome and its
      writes. */
  method GenerateOne(gen: Generator, contigs: string, outputDir: string, clock: int,
                     read: string -> Option<string>, post: (string, string, map<string, Value>) -> Reply)
    returns (r: Result<Value, Failure>, dumped: Option<(string, Value)>, saved: Option<(string, string)>)
    ensures r == BatchOutcome(gen, contigs, outputDir, clock, post)
    ensures dumped == Dump(BatchReply(gen, contigs, post), outputDir, clock)
    ensures saved == Save(BatchReply(gen, contigs, post), outputDir, clock)
  {
    r, dumped, saved := GenerateStructure(gen, contigs, None, [], 50, outputDir, clock, read, post);
  }

  /** Lines 136-172. Besides the results, the indices after which the
      helper pauses are returned, and for each contig the reply dumped and
      the structure file written by its call. */
  method GenerateMultiple(gen: Generator, contigsList: seq<string>, outputDir: string,
                          clocks: nat -> int, read: string -> Option<string>,
                          post: (string, string, map<string, Value>) -> Reply,
                          describe: Failure -> string)
    returns (results: seq<Value>, pauses: seq<nat>,
             dumps: seq<Option<(string, Value)>>, saves: seq<Option<(string, string)>>)
    ensures |dumps| == |saves| == |contigsList|
    ensures forall i | 0 <= i < |contigsList| ::
      var reply := BatchReply(gen, contigsList[i], post);
      dumps[i] == Dump(reply, outputDir, clocks(i)) && saves[i] == Save(reply, outputDir, clocks(i))
    ensures var outcomes := seq(|contigsList|, i requires 0 <= i < |contigsList| =>
              BatchOutcome(gen, contigsList[i], outputDir, clocks(i), post));
      && |results| == |contigsList|
      && (forall i | 0 <= i < |results| :: results[i] == Entry(outcomes[i], describe))
      && pauses == Positions(seq(|outcomes|, i requires 0 <= i < |outcomes| =>
                                 outcomes[i].Ok? && i < |contigsList| - 1))
  {
    ghost var outcomes := seq(|contigsList|, i requires 0 <= i < |contigsList| =>
      BatchOutcome(gen, contigsList[i], outputDir, clocks(i), post));
    ghost var flags := seq(|outcomes|, i requires 0 <= i < |outcomes| =>
      outcomes[i].Ok? && i < |contigsList| - 1);
    ghost var entries := seq(|outcomes|, i requires 0 <= i < |outcomes| => Entry(outcomes[i], describe));
    ghost var allDumps := seq(|contigsList|, i requires 0 <= i < |contigsList| =>
      Dump(BatchReply(gen, contigsList[i], post), outputDir, clocks(i)));
    ghost var allSaves := seq(|contigsList|, i requires 0 <= i < |contigsList| =>
      Save(BatchReply(gen, contigsList[i], post), outputDir, clocks(i)));
    results, pauses, dumps, saves := [], [], [], [];
    for i := 0 to |contigsList|
      invariant results == entries[..i]
      invariant pauses == Positions(flags[..i])
      invariant dumps == allDumps[..i]
      invariant saves == allSaves[..i]
    {
      PositionsStep(flags, i);
      PrefixStep(entries, i);
      PrefixStep(allDumps, i);
      PrefixStep(allSaves, i);
      var result, dumped, saved := GenerateOne(gen, contigsList[i], outputDir, clocks(i), read, post);
      dumps, saves := dumps + [dumped], saves + [saved];
      if result.Ok? {
        results := results + [result.value];
        if i < |contigsList| - 1 {
          pauses := pauses + [i];
        }
      } else {
        results := results + [Obj(map["error" := Str(describe(result.error))])];
      }
    }
    assert flags[..|contigsList|] == flags;
    assert entries[..|contigsList|] == entries;
    assert allDumps[..|contigsList|] == allDumps;
    assert allSaves[..|contigsList|] == allSaves;
  }
}
