/** scripts/esqueletos/run_nvidia_api_skeleton.py: the single-request
    draft of the NVIDIA RFdiffusion client. It always re-downloads the
    target, refuses a target shorter than 100 characters, and looks for the
    structure under `output_pdb` before `pdb`. */
module NvidiaSkeleton {
  import opened Wrappers
  import opened Text
  import opened Json
  import opened Pdb
  import NvidiaBatch

  /** Line 10: the key as shipped. */
  const ShippedKey: string := ""

  /** Line 52: the placeholder the key guard looks for. */
  const Placeholder: string := "nvapi-XXX"

  /** Line 61: the shortest target text that is sent. */
  const MinContent: nat := 100

  /** Line 66: the contig string of this draft. */
  const Contigs: string := "A1-120/0 70-70"

  /** Line 89: the fields tried for the structure, in order. */
  const StructureKeys: seq<string> := ["output_pdb", "pdb"]

  /** Line 92. */
  const OutputName: string := "design_nvidia_final.pdb"

  /** Line 52: only a key still holding the placeholder is refused. */
  predicate KeyRefused(key: string) {
    Contains(key, Placeholder)
  }

  /** The shipped key is empty, and the guard lets it through. */
  lemma EmptyKeyPasses()
    ensures !KeyRefused(ShippedKey)
  {
    assert forall i | 0 <= i <= 0 :: !OccursAt(ShippedKey, Placeholder, i);
  }

  /** Lines 64-67. */
  function Payload(pdbContent: string): (p: map<string, Value>)
    ensures p.Keys == {"input_pdb", "contigs"}
    ensures p["input_pdb"] == Str(pdbContent) && p["contigs"] == Str(Contigs)
  {
    map["input_pdb" := Str(pdbContent), "contigs" := Str(Contigs)]
  }

  /** Lines 85-100 for a status-200 reply: the text written to the output
      file, if any. A structure that is not a string leaves the file
      created and empty, because `write` raises after `open`. */
  function Written(body: Value): (out: Option<string>)
    ensures out.Some? ==> body.Obj? && FirstTruthy(body.fields, StructureKeys).Some?
  {
    if !body.Obj? then None
    else
      match FirstTruthy(body.fields, StructureKeys)
      case None => None
      case Some(v) => if v.Str? then Some(v.s) else Some("")
  }

  /** `output_pdb` wins over `pdb`; with neither, nothing is written. */
  lemma StructureFieldOrder(body: map<string, Value>)
    ensures Provides(body, "output_pdb") ==> FirstTruthy(body, StructureKeys) == Some(body["output_pdb"])
    ensures !Provides(body, "output_pdb") && Provides(body, "pdb") ==>
      FirstTruthy(body, StructureKeys) == Some(body["pdb"])
    ensures Written(Obj(body)).None? <==> !Provides(body, "output_pdb") && !Provides(body, "pdb")
  {
    assert StructureKeys[0] == "output_pdb" && StructureKeys[1] == "pdb";
    assert StructureKeys[1..] == ["pdb"];
  }

  /** The two scripts disagree on a reply that carries both fields: the
      batch script saves `pdb`, this draft `output_pdb`. */
  lemma FallbackOrdersDiffer()
    ensures var body := map["pdb" := Str("P"), "output_pdb" := Str("O")];
      && NvidiaBatch.Classify(Response(200, Obj(body), "")) == NvidiaBatch.Saved("P")
      && Written(Obj(body)) == Some("O")
  {
    var body := map["pdb" := Str("P"), "output_pdb" := Str("O")];
    NvidiaBatch.StructureFieldOrder(body);
    StructureFieldOrder(body);
  }

  /** How the draft ends. */
  datatype Outcome =
    | KeyRejected       // lines 52-54
    | DownloadFailed    // line 56
    | TargetTooShort    // lines 61-62: nothing is sent
    | RequestFailed     // lines 81-83, 102-103: an error status or an exception
    | NoStructure       // lines 99-100: a reply without either field
    | Saved             // lines 91-98
    | WriteFailed       // lines 94-95, 102-103: a structure that is not text;
                        // `write` raises and leaves the file created and empty

  /** Lines 23-47, `force_download_pdb`: the target file afterwards, the
      ATOM lines of the downloaded model, or no file when the download
      fails (the old file has been removed first). */
  function Fresh(download: Option<string>): (target: Option<string>)
    ensures target.Some? <==> download.Some?
  {
    if download.Some? then Some(AtomOnly(download.value)) else None
  }

  /** Lines 23-47 step by step; `ok` is the value returned. */
  method ForceDownload(download: Option<string>) returns (ok: bool, target: Option<string>)
    ensures target == Fresh(download) && (ok <==> target.Some?)
  {
    target := None;
    if download.None? {
      return false, target;
    }
    var lines := Split(download.value, '\n');
    var atomLines := AtomLines(lines);
    var cleanContent := Join(atomLines, '\n');
    target := Some(cleanContent);
    ok := true;
  }

  /** What one run of the draft leaves: how it ended, the target file
      afterwards, the payload sent (if a request was made) and the output
      file. */
  datatype Run = Run(outcome: Outcome, target: Option<string>,
                     sent: Option<map<string, Value>>, output: Option<string>)

  /** Lines 50-103 as one value. `inputFile` is the target file before the
      run (`None` when absent) and `cleaned` what `force_download_pdb` leaves
      in it; lines 58-59 read that file back in text mode, so the guard and
      the payload see it with its line ends translated. */
  function Draft(apiKey: string, inputFile: Option<string>, cleaned: Option<string>,
                 post: (string, map<string, Value>) -> Reply): Run
  {
    if KeyRefused(apiKey) then Run(KeyRejected, inputFile, None, None)
    else if cleaned.None? then Run(DownloadFailed, None, None, None)
    else
      var content := ReadBack(cleaned.value);
      if |content| < MinContent then Run(TargetTooShort, cleaned, None, None)
      else
        var reply := post("Bearer " + apiKey, Payload(content));
        if reply.Raised? || reply.status != 200 || !reply.body.Obj? then
          Run(RequestFailed, cleaned, Some(Payload(content)), None)
        else
          match FirstTruthy(reply.body.fields, StructureKeys)
          case None => Run(NoStructure, cleaned, Some(Payload(content)), None)
          case Some(v) =>
            if v.Str? then Run(Saved, cleaned, Some(Payload(content)), Some(v.s))
            else Run(WriteFailed, cleaned, Some(Payload(content)), Some(""))
  }

  /** A refused key touches nothing, not even the target file; otherwise
      the target is what the download left. */
  lemma DraftTarget(apiKey: string, inputFile: Option<string>, cleaned: Option<string>,
                    post: (string, map<string, Value>) -> Reply)
    ensures var r := Draft(apiKey, inputFile, cleaned, post);
      && (KeyRefused(apiKey) <==> r.outcome == KeyRejected)
      && (KeyRefused(apiKey) ==> r.target == inputFile && r.sent.None? && r.output.None?)
      && (!KeyRefused(apiKey) ==> r.target == cleaned)
      && (r.outcome == DownloadFailed <==> !KeyRefused(apiKey) && cleaned.None?)
  {
  }

  /** A request is made exactly when the target, as read back, holds at
      least 100 characters, and it carries that text; the output file is written
      only from a status-200 reply. The run ends `Saved` with the text of
      the structure, or `WriteFailed` with an empty file when the structure
      is not text. */
  lemma DraftRequest(apiKey: string, inputFile: Option<string>, cleaned: Option<string>,
                     post: (string, map<string, Value>) -> Reply)
    ensures var r := Draft(apiKey, inputFile, cleaned, post);
      && (r.sent.Some? <==> !KeyRefused(apiKey) && cleaned.Some? && |ReadBack(cleaned.value)| >= MinContent)
      && (r.sent.Some? ==> r.sent.value == Payload(ReadBack(cleaned.value)))
      && (r.output.Some? ==>
            && r.sent.Some?
            && var reply := post("Bearer " + apiKey, r.sent.value);
            reply.Response? && reply.status == 200 && r.output == Written(reply.body))
      && (r.output.Some? <==> r.outcome == Saved || r.outcome == WriteFailed)
      && (r.outcome == WriteFailed ==> r.output == Some(""))
      && (r.outcome == Saved ==>
            var reply := post("Bearer " + apiKey, r.sent.value);
            FirstTruthy(reply.body.fields, StructureKeys) == Some(Str(r.output.value)))
  {
  }

  /** Lines 50-103, step by step. */
  method RunBatch(apiKey: string, inputFile: Option<string>, download: Option<string>,
                  post: (string, map<string, Value>) -> Reply)
    returns (outcome: Outcome, target: Option<string>, sent: Option<map<string, Value>>,
             output: Option<string>)
    ensures Run(outcome, target, sent, output) == Draft(apiKey, inputFile, Fresh(download), post)
  {
    target, sent, output := inputFile, None, None;
    if Contains(apiKey, Placeholder) {
      return KeyRejected, target, sent, output;
    }
    var ok;
    ok, target := ForceDownload(download);
    if !ok {
      return DownloadFailed, target, sent, output;
    }
    var pdbContent := ReadBack(target.value);
    if |pdbContent| < MinContent {
      return TargetTooShort, target, sent, output;
    }
    var payload := map["input_pdb" := Str(pdbContent), "contigs" := Str(Contigs)];
    sent := Some(payload);
    var response := post("Bearer " + apiKey, payload);
    if response.Raised? {
      return RequestFailed, target, sent, output;
    }
    if response.status != 200 || !response.body.Obj? {
      return RequestFailed, target, sent, output;
    }
    var pdbData := FirstTruthy(response.body.fields, StructureKeys);
    if pdbData.None? {
      return NoStructure, target, sent, output;
    }
    if !pdbData.value.Str? {
      // the file is opened, then `write` raises
      return WriteFailed, target, sent, Some("");
    }
    output := Some(pdbData.value.s);
    outcome := Saved;
  }
}
