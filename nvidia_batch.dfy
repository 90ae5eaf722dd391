/** scripts/run_01_nvidia_api.py: forty RFdiffusion designs requested from
    the NVIDIA hosted service against a cleaned PD-L1 target, each saved
    under its own design id when the reply carries a structure. */
module NvidiaBatch {
  import opened Wrappers
  import opened Text
  import opened Json
  import opened Pdb

  /** Line 86. */
  const TotalDesigns: nat := 40

  /** Line 115: target residues 1-120, a chain break, a 70-residue binder. */
  const Contigs: string := "A1-120 0 70-70"

  /** Line 125: the fields tried for the structure, in order. */
  const StructureKeys: seq<string> := ["pdb", "protein", "output_pdb"]

  /** Lines 113-116. */
  function Payload(pdbContent: string): (p: map<string, Value>)
    ensures p.Keys == {"input_pdb", "contigs"}
    ensures p["input_pdb"] == Str(pdbContent) && p["contigs"] == Str(Contigs)
  {
    map["input_pdb" := Str(pdbContent), "contigs" := Str(Contigs)]
  }

  /** Line 106: `f"design_{TIMESTAMP}_{i:02d}"`. */
  function DesignId(timestamp: string, i: nat): string {
    "design_" + timestamp + "_" + PadLeft(NatToString(i), 2, '0')
  }

  /** Designs of one run have different ids, so no design overwrites
      another's file. */
  lemma DesignIdsDiffer(timestamp: string, i: nat, j: nat)
    requires i != j
    ensures DesignId(timestamp, i) != DesignId(timestamp, j)
  {
    var prefix := "design_" + timestamp + "_";
    var a, b := PadLeft(NatToString(i), 2, '0'), PadLeft(NatToString(j), 2, '0');
    ZeroPadReadBack(i, 2);
    ZeroPadReadBack(j, 2);
    assert a != b;
    assert DesignId(timestamp, i)[|prefix|..] == a;
    assert DesignId(timestamp, j)[|prefix|..] == b;
  }

  /** Lines 45-74: the target is reused when present; otherwise the
      AlphaFold model is downloaded (`download`, `None` for any failure)
      and only its ATOM lines are written. */
  method EnsureTarget(present: bool, download: Option<string>)
    returns (ok: bool, written: Option<string>)
    ensures ok <==> present || download.Some?
    ensures written.Some? <==> !present && download.Some?
    ensures written.Some? ==> written.value == AtomOnly(download.value)
    ensures written.Some? && written.value != [] ==>
      forall k | 0 <= k < |Split(written.value, '\n')| :: IsAtom(Split(written.value, '\n')[k])
  {
    if present {
      return true, None;
    }
    if download.None? {
      return false, None;
    }
    var clean := AtomOnly(download.value);
    if clean != [] {
      CleanTargetLines(download.value);
    }
    return true, Some(clean);
  }

  /** A non-empty cleaned target is made of ATOM lines only. */
  lemma CleanTargetLines(text: string)
    requires AtomOnly(text) != []
    ensures forall k | 0 <= k < |Split(AtomOnly(text), '\n')| :: IsAtom(Split(AtomOnly(text), '\n')[k])
  {
    var lines := Split(text, '\n');
    assert AtomLines(lines) != [];
    AtomLinesMembers(lines);
    AtomOnlyLines(text);
  }

  /** What one iteration of lines 104-146 does with its reply. */
  datatype Attempt =
    | Saved(pdb: string)    // status 200 and a structure string: written and counted
    | WriteFailed           // status 200 and a structure that is not a string: the
                            // file is created, `write` raises, nothing is counted
    | NoStructure           // status 200 and none of the fields
    | RateLimited           // status 429: a pause, then the next design
    | Failed(status: int)   // any other status, logged
    | ScriptError           // the request raised, or the body is not an object

  /** Lines 120-146 for one reply. */
  function Classify(reply: Reply): (a: Attempt)
    ensures a.Saved? ==> a.pdb != []
  {
    match reply
    case Raised(_) => ScriptError
    case Response(status, body, _) =>
      if status == 200 then
        if !body.Obj? then ScriptError
        else
          match FirstTruthy(body.fields, StructureKeys)
          case None => NoStructure
          case Some(v) => if v.Str? then Saved(v.s) else WriteFailed
      else if status == 429 then RateLimited
      else Failed(status)
  }

  /** A structure is saved exactly when the status is 200 and the first
      truthy field among `pdb`, `protein`, `output_pdb` is a string; that
      string is what is saved. */
  lemma SavedExactly(reply: Reply)
    ensures Classify(reply).Saved? <==>
      && reply.Response? && reply.status == 200 && reply.body.Obj?
      && var v := FirstTruthy(reply.body.fields, StructureKeys); v.Some? && v.value.Str?
    ensures Classify(reply).Saved? ==>
      Some(Str(Classify(reply).pdb)) == FirstTruthy(reply.body.fields, StructureKeys)
  {
  }

  /** The `pdb` field wins over the others, and `protein` over
      `output_pdb`. */
  lemma StructureFieldOrder(body: map<string, Value>)
    ensures Provides(body, "pdb") ==> FirstTruthy(body, StructureKeys) == Some(body["pdb"])
    ensures !Provides(body, "pdb") && Provides(body, "protein") ==>
      FirstTruthy(body, StructureKeys) == Some(body["protein"])
    ensures FirstTruthy(body, StructureKeys).None? <==>
      !Provides(body, "pdb") && !Provides(body, "protein") && !Provides(body, "output_pdb")
  {
    assert StructureKeys[0] == "pdb" && StructureKeys[1] == "protein" && StructureKeys[2] == "output_pdb";
    assert StructureKeys[1..] == ["protein", "output_pdb"];
    assert StructureKeys[1..][1..] == ["output_pdb"];
  }

  /** The attempts of the run: design `k + 1` gets reply `post(auth,
      payload, k + 1)`; the index only tells the calls apart. */
  function Attempts(auth: string, payload: map<string, Value>,
                    post: (string, map<string, Value>, nat) -> Reply): (attempts: seq<Attempt>)
    ensures |attempts| == TotalDesigns
  {
    seq(TotalDesigns, k requires 0 <= k < TotalDesigns => Classify(post(auth, payload, k + 1)))
  }

  /** The files after one attempt: a saved structure is written, a failed
      write leaves the file empty, anything else leaves no file. */
  function Record(files: map<string, string>, id: string, a: Attempt): map<string, string> {
    match a
    case Saved(pdb) => files[id := pdb]
    case WriteFailed => files[id := ""]
    case _ => files
  }

  /** The files the attempts leave, by design id. */
  function Files(timestamp: string, attempts: seq<Attempt>): map<string, string>
    decreases |attempts|
  {
    if attempts == [] then map[]
    else
      var n := |attempts|;
      Record(Files(timestamp, attempts[..n - 1]), DesignId(timestamp, n), attempts[n - 1])
  }

  /** One more attempt, in the loop's terms. */
  lemma FilesStep(timestamp: string, attempts: seq<Attempt>, i: nat)
    requires 1 <= i <= |attempts|
    ensures Files(timestamp, attempts[..i])
      == Record(Files(timestamp, attempts[..i - 1]), DesignId(timestamp, i), attempts[i - 1])
    ensures Successes(attempts[..i])
      == Successes(attempts[..i - 1]) + if attempts[i - 1].Saved? then 1 else 0
  {
    assert attempts[..i][..i - 1] == attempts[..i - 1];
  }

  /** The number of designs saved. */
  function Successes(attempts: seq<Attempt>): (n: nat)
    ensures n <= |attempts|
    decreases |attempts|
  {
    if attempts == [] then 0
    else Successes(attempts[..|attempts| - 1]) + if attempts[|attempts| - 1].Saved? then 1 else 0
  }

  /** Every file belongs to one of the designs of the run. */
  lemma {:induction false} FilesOfDesigns(timestamp: string, attempts: seq<Attempt>)
    ensures forall id | id in Files(timestamp, attempts) ::
      exists i | 1 <= i <= |attempts| :: id == DesignId(timestamp, i)
    decreases |attempts|
  {
    if attempts != [] {
      FilesOfDesigns(timestamp, attempts[..|attempts| - 1]);
    }
  }

  /** The file named `id` is there exactly when the attempt wrote one, and
      holds what it wrote. */
  predicate FileMatches(files: map<string, string>, id: string, a: Attempt) {
    && (id in files <==> a.Saved? || a.WriteFailed?)
    && (a.Saved? ==> id in files && files[id] == a.pdb)
    && (a.WriteFailed? ==> id in files && files[id] == "")
  }

  /** Design `i` has a file exactly when its structure was written (or its
      write failed, leaving the file empty), and the file holds the saved
      structure; a rate-limited design gets no file, and is not retried. */
  lemma FileOfDesign(timestamp: string, attempts: seq<Attempt>, i: nat)
    requires 1 <= i <= |attempts|
    ensures FileMatches(Files(timestamp, attempts), DesignId(timestamp, i), attempts[i - 1])
    decreases |attempts|, 1
  {
    if i < |attempts| {
      FileOfEarlierDesign(timestamp, attempts, i);
    } else {
      FileOfLastDesign(timestamp, attempts);
    }
  }

  lemma FileOfEarlierDesign(timestamp: string, attempts: seq<Attempt>, i: nat)
    requires 1 <= i < |attempts|
    ensures FileMatches(Files(timestamp, attempts), DesignId(timestamp, i), attempts[i - 1])
    decreases |attempts|, 0
  {
    var n := |attempts|;
    var front := attempts[..n - 1];
    FileOfDesign(timestamp, front, i);
    assert front[i - 1] == attempts[i - 1];
    DesignIdsDiffer(timestamp, i, n);
    FilesKeepOthers(timestamp, attempts, DesignId(timestamp, i));
  }

  /** The last attempt touches no file but its own. */
  lemma FilesKeepOthers(timestamp: string, attempts: seq<Attempt>, id: string)
    requires attempts != [] && id != DesignId(timestamp, |attempts|)
    ensures var front := Files(timestamp, attempts[..|attempts| - 1]);
      var files := Files(timestamp, attempts);
      && (id in files <==> id in front)
      && (id in front ==> files[id] == front[id])
  {
    var n := |attempts|;
    RecordKeepsOthers(Files(timestamp, attempts[..n - 1]), DesignId(timestamp, n), attempts[n - 1], id);
  }

  /** An attempt touches only its own file. */
  lemma RecordKeepsOthers(files: map<string, string>, id: string, a: Attempt, other: string)
    requires other != id
    ensures other in Record(files, id, a) <==> other in files
    ensures other in files ==> Record(files, id, a)[other] == files[other]
  {
  }

  lemma FileOfLastDesign(timestamp: string, attempts: seq<Attempt>)
    requires attempts != []
    ensures FileMatches(Files(timestamp, attempts), DesignId(timestamp, |attempts|), attempts[|attempts| - 1])
  {
    var n := |attempts|;
    var front := attempts[..n - 1];
    FilesOfDesigns(timestamp, front);
    forall j | 1 <= j <= n - 1 ensures DesignId(timestamp, j) != DesignId(timestamp, n) {
      DesignIdsDiffer(timestamp, j, n);
    }
  }

  /** The success count is the number of saved designs. */
  lemma {:induction false} SuccessesCounted(attempts: seq<Attempt>)
    ensures Successes(attempts) == |set k | 0 <= k < |attempts| && attempts[k].Saved?|
    decreases |attempts|
  {
    if attempts != [] {
      var n := |attempts|;
      var front := attempts[..n - 1];
      SuccessesCounted(front);
      var before := set k | 0 <= k < n - 1 && front[k].Saved?;
      var all := set k | 0 <= k < n && attempts[k].Saved?;
      if attempts[n - 1].Saved? {
        assert all == before + {n - 1};
      } else {
        assert all == before;
      }
    }
  }

  /** Lines 95-146: the loop over the forty designs. */
  method RunBatch(pdbContent: string, apiKey: string, timestamp: string,
                  post: (string, map<string, Value>, nat) -> Reply)
    returns (files: map<string, string>, successCount: nat)
    ensures var attempts := Attempts("Bearer " + apiKey, Payload(pdbContent), post);
      files == Files(timestamp, attempts) && successCount == Successes(attempts)
    ensures successCount <= TotalDesigns
  {
    ghost var attempts := Attempts("Bearer " + apiKey, Payload(pdbContent), post);
    successCount := 0;
    files := map[];
    var auth := "Bearer " + apiKey;
    for i := 1 to TotalDesigns + 1
      invariant files == Files(timestamp, attempts[..i - 1])
      invariant successCount == Successes(attempts[..i - 1])
    {
      FilesStep(timestamp, attempts, i);
      var designId := DesignId(timestamp, i);
      var payload := Payload(pdbContent);
      var reply := post(auth, payload, i);
      assert attempts[i - 1] == Classify(reply);
      var saved;
      files, saved := HandleReply(files, designId, reply);
      if saved {
        successCount := successCount + 1;
      }
    }
    assert attempts[..TotalDesigns] == attempts;
  }

  /** Lines 120-146 for one reply: the structure is written under the
      design's name; `saved` tells whether the success counter goes up. */
  method HandleReply(files: map<string, string>, designId: string, reply: Reply)
    returns (after: map<string, string>, saved: bool)
    ensures after == Record(files, designId, Classify(reply))
    ensures saved <==> Classify(reply).Saved?
  {
    after, saved := files, false;
    if reply.Response? {
      if reply.status == 200 {
        if reply.body.Obj? {
          var pdbData := FirstTruthy(reply.body.fields, StructureKeys);
          if pdbData.Some? {
            if pdbData.value.Str? {
              after := files[designId := pdbData.value.s];
              saved := true;
            } else {
              after := files[designId := ""];
            }
          }
        }
      }
    }
  }

  /** What the script ends with. */
  datatype Outcome =
    | KeyMissing        // lines 17-18: ValueError before anything else
    | TargetUnavailable // line 78-79: the download failed, no request is made
    | Finished(target: Option<string>, files: map<string, string>, successCount: nat)

  /** The script: `apiKey` is the environment variable, `present` and
      `existing` the target file, `download` the AlphaFold model text
      (`None` when fetching it fails) and `post` the hosted service. Lines
      82-83 read the target back in text mode, so the payload carries it
      with its line ends translated. */
  method Run(apiKey: Option<string>, present: bool, existing: string, download: Option<string>,
             timestamp: string, post: (string, map<string, Value>, nat) -> Reply)
    returns (outcome: Outcome)
    ensures apiKey.None? || apiKey == Some("") <==> outcome == KeyMissing
    ensures outcome == TargetUnavailable <==>
      apiKey.Some? && apiKey.value != "" && !present && download.None?
    ensures outcome.Finished? ==>
      var content := if present then existing else AtomOnly(download.value);
      var attempts := Attempts("Bearer " + apiKey.value, Payload(ReadBack(content)), post);
      && outcome.target == (if present then None else Some(content))
      && outcome.files == Files(timestamp, attempts)
      && outcome.successCount == Successes(attempts) <= TotalDesigns
  {
    if apiKey.None? || apiKey.value == "" {
      return KeyMissing;
    }
    var ok, written := EnsureTarget(present, download);
    if !ok {
      return TargetUnavailable;
    }
    var content := ReadBack(if written.Some? then written.value else existing);
    var files, successCount := RunBatch(content, apiKey.value, timestamp, post);
    outcome := Finished(written, files, successCount);
  }
}
