/** clean_pdb.py: a structure file is copied keeping only the ATOM lines
    of the twenty standard amino acids and the lines that start with
    `END`; the script needs an input and an output path. */
module CleanPdb {
  import opened Wrappers
  import opened Seqs
  import opened Text
  import opened Pdb

  /** Lines 5-8. */
  const StandardResidues: set<string> := {
    "ALA", "ARG", "ASN", "ASP", "CYS", "GLN", "GLU", "GLY", "HIS", "ILE",
    "LEU", "LYS", "MET", "PHE", "PRO", "SER", "THR", "TRP", "TYR", "VAL"
  }

  /** Lines 13-20: an ATOM line of a standard residue, or a line starting
      with `END`. */
  predicate Kept(line: string) {
    if IsAtom(line) then ResName(line) in StandardResidues else StartsWith(line, "END")
  }

  function KeptFlags(lines: seq<string>): (flags: seq<bool>)
    ensures |flags| == |lines| && forall i | 0 <= i < |lines| :: flags[i] == Kept(lines[i])
  {
    seq(|lines|, i requires 0 <= i < |lines| => Kept(lines[i]))
  }

  /** The lines at the given positions. */
  function Pick(lines: seq<string>, positions: seq<nat>): (out: seq<string>)
    requires forall k | 0 <= k < |positions| :: positions[k] < |lines|
    ensures |out| == |positions| && forall k | 0 <= k < |out| :: out[k] == lines[positions[k]]
  {
    seq(|positions|, k requires 0 <= k < |positions| => lines[positions[k]])
  }

  /** The kept lines, in their input order. */
  function Cleaned(lines: seq<string>): seq<string> {
    Pick(lines, Positions(KeptFlags(lines)))
  }

  /** Lines 10-20: the loop writing the kept lines. */
  method CleanLines(lines: seq<string>) returns (out: seq<string>)
    ensures out == Cleaned(lines)
  {
    ghost var flags := KeptFlags(lines);
    out := [];
    for i := 0 to |lines|
      invariant out == Pick(lines, Positions(flags[..i]))
    {
      PickStep(lines, flags, i);
      var line := lines[i];
      if IsAtom(line) {
        var resName := ResName(line);
        if resName in StandardResidues {
          out := out + [line];
        }
      } else if StartsWith(line, "END") {
        out := out + [line];
      }
    }
    assert flags[..|lines|] == flags;
  }

  /** Looking at one more line appends it when its flag is set. */
  lemma PickStep(lines: seq<string>, flags: seq<bool>, i: nat)
    requires |flags| == |lines| && i < |lines|
    ensures Pick(lines, Positions(flags[..i + 1]))
      == Pick(lines, Positions(flags[..i])) + if flags[i] then [lines[i]] else []
  {
    PositionsStep(flags, i);
  }

  /** Every output line is an input line that is kept, the output follows
      the input order, and no kept line is missed. */
  lemma CleanedInOrder(lines: seq<string>)
    ensures var p := Positions(KeptFlags(lines));
      && |Cleaned(lines)| == |p|
      && (forall k | 0 <= k < |p| :: Cleaned(lines)[k] == lines[p[k]] && Kept(lines[p[k]]))
      && (forall k, l | 0 <= k < l < |p| :: p[k] < p[l])
      && (forall i | 0 <= i < |lines| && Kept(lines[i]) :: i in p)
  {
  }

  /** Cleaning a cleaned file changes nothing. */
  lemma CleanIdempotent(lines: seq<string>)
    ensures Cleaned(Cleaned(lines)) == Cleaned(lines)
  {
    var out := Cleaned(lines);
    CleanedInOrder(lines);
    PositionsAll(KeptFlags(out));
  }

  /** HETATM records (water and ions among them), header records and ATOM
      lines of other residues are dropped; `ENDMDL` is kept because the
      `END` test is a prefix test. */
  lemma RecordsKeptAndDropped(line: string)
    ensures StartsWith(line, "HETATM") ==> !Kept(line)
    ensures StartsWith(line, "HEADER") ==> !Kept(line)
    ensures IsAtom(line) && ResName(line) == "HOH" ==> !Kept(line)
    ensures StartsWith(line, "ENDMDL") ==> Kept(line)
  {
    if StartsWith(line, "HETATM") || StartsWith(line, "HEADER") {
      assert line[..6][0] == 'H';
      FirstLetterDropped(line);
    }
    if StartsWith(line, "ENDMDL") {
      assert line[..3] == line[..6][..3];
      assert line[..4][0] == line[..6][0];
    }
  }

  /** A line starting with neither `A` nor `E` is dropped. */
  lemma FirstLetterDropped(line: string)
    requires line != [] && line[0] != 'A' && line[0] != 'E'
    ensures !Kept(line)
  {
    assert |line| >= 4 ==> line[..4][0] == line[0];
    assert |line| >= 3 ==> line[..3][0] == line[0];
  }

  /** Lines 22-27: fewer than two arguments only print the usage; otherwise
      the second is written with the cleaned lines of the first. `read`
      gives the lines of a file. Line 10 opens the output for writing after
      opening the input, so when both paths are the same the file is
      truncated before its first line is read and ends empty. */
  method Run(argv: seq<string>, read: string -> seq<string>) returns (written: Option<(string, seq<string>)>)
    ensures written.None? <==> |argv| < 3
    ensures written.Some? ==> written.value.0 == argv[2]
    ensures written.Some? && argv[1] != argv[2] ==> written.value.1 == Cleaned(read(argv[1]))
    ensures written.Some? && argv[1] == argv[2] ==> written.value.1 == []
  {
    if |argv| < 3 {
      return None;
    }
    var input := if argv[1] == argv[2] then [] else read(argv[1]);
    var out := CleanLines(input);
    written := Some((argv[2], out));
  }
}
