/**
 * The Audacity batch script that derives faster variants of each recording:
 * for every `.flac` file in the input directory it reads the BPM from the
 * file name, asks Audacity to open it, and for each of three increments
 * changes the tempo and exports a file named after the new BPM.
 *
 * The pipe to Audacity becomes an oracle: `replies(n)` is the line Audacity
 * answers to the n-th command of the run (counting from 0), already stripped.
 * Paths follow Windows conventions (`ntpath`), the platform of the named pipes.
 */
module PitchAdjust {
  import opened Wrappers
  import opened Text
  import Seqs

  const INPUT_DIR := "input_audio_files"
  const OUTPUT_DIR := "processed_audio_output"
  const INCREMENTS: seq<int> := [5, 10, 15]
  const OK_TEXT := "BatchCommand finished: OK"

  /** The commands the script sends; ChangeTempo carries the two BPMs its percentage is computed from. */
  datatype Command =
    | Open(path: string)
    | SelectAll
    | ChangeTempo(fromBpm: int, toBpm: int)
    | Export2(path: string)
    | Close

  /** One increment: exported to `path` (and whether Audacity answered OK), or skipped because the name has no field 2. */
  datatype Step = Exported(target: int, path: string, ok: bool) | Skipped(target: int)

  /**
   * How a call of process_file_with_bpm_adjustments ends: no BPM in the name,
   * Audacity could not open the file, ZeroDivisionError on a BPM of 0 (which
   * nothing catches), or processed with one step per increment.
   */
  datatype Outcome = NoBpm | OpenFailed | Crashed | Processed(steps: seq<Step>)

  // ---------------------------------------------------------------------------
  // Paths

  predicate IsSep(c: char)
  {
    c == '\\' || c == '/'
  }

  /** `s.rfind` of a separator: the last position holding `\\` or `/`, or -1. */
  function LastSep(s: string): (r: int)
    ensures -1 <= r < |s|
    ensures r >= 0 ==> IsSep(s[r])
    ensures forall j :: r < j < |s| ==> !IsSep(s[j])
    decreases |s|
  {
    if s == [] then -1
    else if IsSep(s[|s| - 1]) then |s| - 1
    else LastSep(s[..|s| - 1])
  }

  /** `s.rfind('.')`: the last position holding a dot, or -1. */
  function LastDot(s: string): (r: int)
    ensures -1 <= r < |s|
    ensures r >= 0 ==> s[r] == '.'
    ensures forall j :: r < j < |s| ==> s[j] != '.'
    decreases |s|
  {
    if s == [] then -1
    else if s[|s| - 1] == '.' then |s| - 1
    else LastDot(s[..|s| - 1])
  }

  /** Some position from `lo` up to (not including) `hi` holds a character other than a dot. */
  predicate NonDotBetween(s: string, lo: nat, hi: nat)
    requires lo <= hi <= |s|
    decreases hi - lo
  {
    lo < hi && (s[lo] != '.' || NonDotBetween(s, lo + 1, hi))
  }

  lemma {:induction false} NonDotAt(s: string, lo: nat, hi: nat, u: nat)
    requires lo <= u < hi <= |s| && s[u] != '.'
    ensures NonDotBetween(s, lo, hi)
    decreases u - lo
  {
    if s[lo] == '.' {
      NonDotAt(s, lo + 1, hi, u);
    }
  }

  lemma {:induction false} NonDotWitness(s: string, lo: nat, hi: nat)
    requires lo <= hi <= |s| && NonDotBetween(s, lo, hi)
    ensures exists u :: lo <= u < hi && s[u] != '.'
    decreases hi - lo
  {
    if s[lo] == '.' {
      NonDotWitness(s, lo + 1, hi);
    }
  }

  /** The test splitext makes is "some dot of the final component follows a character other than a dot". */
  lemma ExtensionCondition(p: string)
    ensures var sep, dot := LastSep(p), LastDot(p);
            (dot > sep && NonDotBetween(p, sep + 1, dot)) <==>
              exists u, d :: sep < u < d < |p| && p[u] != '.' && p[d] == '.'
  {
    var sep, dot := LastSep(p), LastDot(p);
    if dot > sep && NonDotBetween(p, sep + 1, dot) {
      NonDotWitness(p, sep + 1, dot);
      var u :| sep + 1 <= u < dot && p[u] != '.';
      assert sep < u < dot < |p| && p[u] != '.' && p[dot] == '.';
    }
    if exists u, d :: sep < u < d < |p| && p[u] != '.' && p[d] == '.' {
      var u, d :| sep < u < d < |p| && p[u] != '.' && p[d] == '.';
      DotUpToLast(p, d);
      NonDotAt(p, sep + 1, dot, u);
    }
  }

  lemma DotUpToLast(p: string, d: nat)
    requires d < |p| && p[d] == '.'
    ensures d <= LastDot(p)
  {
  }

  /** `os.path.join(directory, name)` for a name with no drive and no leading separator. */
  function JoinPath(directory: string, name: string): string
  {
    directory + "\\" + name
  }

  /**
   * `os.path.basename`: the end of `p` after its last separator, or after a
   * leading `X:` drive when `p` has no separator.
   */
  function Basename(p: string): (r: string)
    ensures NoSep(r)
    ensures |r| <= |p| && r == p[|p| - |r|..]
    ensures |r| < |p| ==> IsSep(p[|p| - |r| - 1]) || (NoSep(p) && |p| - |r| == 2 && p[1] == ':')
    ensures NoSep(p) && |p| >= 2 && p[1] == ':' ==> |r| == |p| - 2
  {
    var last := LastSep(p);
    var start := if last < 0 && |p| >= 2 && p[1] == ':' then 2 else last + 1;
    var r := p[start..];
    forall c | c in r ensures !IsSep(c) {
      var j :| 0 <= j < |r| && r[j] == c;
      assert p[start + j] == c;
    }
    r
  }

  lemma BasenameOfJoin(directory: string, name: string)
    requires forall c :: c in name ==> !IsSep(c)
    ensures Basename(JoinPath(directory, name)) == name
  {
    var p := JoinPath(directory, name);
    assert p[|directory|] == '\\';
    var last := LastSep(p);
    assert last == |directory| by {
      assert forall j :: |directory| < j < |p| ==> p[j] == name[j - |directory| - 1];
    }
    assert p[last + 1..] == name;
  }

  /**
   * `os.path.splitext`: the extension runs from the last dot to the end,
   * provided that dot follows the last separator and something other than a
   * dot comes before it in the final component; otherwise there is none.
   */
  function SplitExt(p: string): (r: (string, string))
    ensures r.0 + r.1 == p
    ensures r.1 != [] <==> exists u, d :: LastSep(p) < u < d < |p| && p[u] != '.' && p[d] == '.'
    ensures r.1 != [] ==> |r.0| == LastDot(p)
    ensures r.1 == [] || (r.1[0] == '.' && '.' !in r.1[1..])
  {
    var sep := LastSep(p);
    var dot := LastDot(p);
    ExtensionCondition(p);
    if dot > sep && NonDotBetween(p, sep + 1, dot) then
      DotTail(p, dot);
      (p[..dot], p[dot..])
    else (p, "")
  }

  /** The text from the last dot on is that dot and no other. */
  lemma DotTail(p: string, dot: nat)
    requires dot < |p| && p[dot] == '.' && forall j :: dot < j < |p| ==> p[j] != '.'
    ensures p[dot..][0] == '.' && '.' !in p[dot..][1..]
  {
    assert forall j :: 1 <= j < |p[dot..]| ==> p[dot..][j] == p[dot + j];
  }

  /** `os.path.splitext(os.path.basename(path))[0]`. */
  function FileBase(path: string): string
  {
    SplitExt(Basename(path)).0
  }

  // ---------------------------------------------------------------------------
  // Names

  /**
   * `int(filename_base.split('_')[1])`: the text from the first underscore to
   * the next one, or to the end, read as an integer. `None` stands for the
   * IndexError of a base without an underscore and the ValueError of a text
   * that is no integer, on which the script gives up on the file.
   */
  function ExtractBpm(base: string): (r: Option<int>)
    ensures '_' !in base ==> r.None?
    ensures '_' in base ==>
              var rest := base[IndexOfChar(base, '_') + 1..];
              r == ParseInt(rest[..IndexOfChar(rest, '_')])
  {
    var fields := SplitOn(base, '_');
    SecondField(base);
    if |fields| < 2 then None else ParseInt(fields[1])
  }

  /** Field 1 of `split('_')` exists exactly when there is an underscore, and runs from it to the next one. */
  lemma SecondField(base: string)
    ensures |SplitOn(base, '_')| >= 2 <==> '_' in base
    ensures '_' in base ==>
              var rest := base[IndexOfChar(base, '_') + 1..];
              SplitOn(base, '_')[1] == rest[..IndexOfChar(rest, '_')]
  {
    var i := IndexOfChar(base, '_');
    if i < |base| {
      var rest := base[i + 1..];
      assert SplitOn(base, '_') == [base[..i]] + SplitOn(rest, '_');
    } else {
      assert '_' !in base;
    }
  }

  /** The export name `field0_target_field2.flac`, or `None` for the IndexError of a base with fewer than three fields. */
  function OutputName(base: string, target: int): (r: Option<string>)
    ensures r.Some? <==> |SplitOn(base, '_')| >= 3
    ensures r.Some? ==> EndsWith(r.value, ".flac") && |r.value| > 5
  {
    var fields := SplitOn(base, '_');
    if |fields| < 3 then None
    else
      var name := fields[0] + "_" + IntToString(target) + "_" + fields[2] + ".flac";
      assert name[|name| - 5..] == ".flac";
      Some(name)
  }

  predicate NoSep(s: string)
  {
    forall c :: c in s ==> !IsSep(c)
  }

  /**
   * For a base without separators, the export name has extension `.flac`,
   * and splitting what precedes it on `_` gives back exactly field 0, the
   * target numeral and field 2: the fields beyond 2 are gone.
   */
  lemma OutputNameFields(base: string, target: int)
    requires |SplitOn(base, '_')| >= 3 && NoSep(base)
    ensures var name := OutputName(base, target).value;
            && SplitExt(name).1 == ".flac"
            && SplitOn(SplitExt(name).0, '_') == [SplitOn(base, '_')[0], IntToString(target), SplitOn(base, '_')[2]]
  {
    var fields := SplitOn(base, '_');
    var numeral := IntToString(target);
    NumeralHasNoUnderscore(target);
    FieldOfNoSep(base, '_', 2);
    NameSplits(fields[0], numeral, fields[2]);
    StemHasNoExtension(fields[0], numeral, fields[2]);
  }

  lemma NumeralHasNoUnderscore(n: int)
    ensures '_' !in IntToString(n)
  {
    var digits := NatToString(if n < 0 then -n else n);
    assert forall i :: 0 <= i < |digits| ==> IsDigit(digits[i]);
  }

  /** A field of a string without separators has none either. */
  lemma FieldOfNoSep(s: string, c: char, i: nat)
    requires NoSep(s) && i < |SplitOn(s, c)|
    ensures NoSep(SplitOn(s, c)[i])
  {
    var fields := SplitOn(s, c);
    forall ch | ch in fields[i] ensures !IsSep(ch) {
      JoinedContains(fields, c, i, ch);
    }
  }

  lemma {:induction false} JoinedContains(fields: seq<string>, c: char, i: nat, ch: char)
    requires i < |fields| && ch in fields[i]
    ensures ch in JoinWith(fields, c)
    decreases |fields|
  {
    if |fields| > 1 {
      if i == 0 {
        assert ch in fields[0] + [c] + JoinWith(fields[1..], c);
      } else {
        JoinedContains(fields[1..], c, i - 1, ch);
        assert ch in fields[0] + [c] + JoinWith(fields[1..], c);
      }
    }
  }

  lemma NameSplits(a: string, b: string, c: string)
    requires '_' !in a && '_' !in b && '_' !in c
    ensures SplitOn(a + "_" + b + "_" + c, '_') == [a, b, c]
  {
    var fields := [a, b, c];
    assert JoinWith(fields, '_') == a + "_" + b + "_" + c by {
      assert JoinWith(fields[1..], '_') == b + "_" + c by {
        assert fields[1..][1..] == [c];
      }
    }
    SplitJoin(fields, '_');
  }

  /** Appending `.flac` to a stem `a_b_c` whose last field has no separator makes `.flac` the extension. */
  lemma StemHasNoExtension(a: string, b: string, c: string)
    requires NoSep(c)
    ensures var stem := a + "_" + b + "_" + c;
            SplitExt(stem + ".flac") == (stem, ".flac")
  {
    var stem := a + "_" + b + "_" + c;
    var p := stem + ".flac";
    var sep := LastSep(p);
    var dot := LastDot(p);
    var u := |a| + 1 + |b|;
    assert p[|stem|] == '.';
    assert dot == |stem| by {
      assert forall j :: |stem| < j < |p| ==> p[j] == ".flac"[j - |stem|];
    }
    assert sep < u by {
      assert forall j :: u < j < |stem| ==> p[j] == c[j - u - 1];
      assert forall j :: |stem| <= j < |p| ==> p[j] == ".flac"[j - |stem|];
      assert p[u] == '_';
    }
    NonDotAt(p, sep + 1, dot, u);
  }

  /**
   * main's filter `file_name.lower().endswith('.flac')`, character by
   * character: the last five characters, lower-cased, spell `.flac`.
   */
  predicate IsFlacName(name: string)
  {
    var n := |name|;
    && n >= 5
    && LowerChar(name[n - 5]) == '.' && LowerChar(name[n - 4]) == 'f' && LowerChar(name[n - 3]) == 'l'
    && LowerChar(name[n - 2]) == 'a' && LowerChar(name[n - 1]) == 'c'
  }

  /** The character test is exactly "the lower-cased name ends in `.flac`". */
  lemma IsFlacNameLower(name: string)
    ensures IsFlacName(name) <==> EndsWith(Lower(name), ".flac")
  {
    var low := Lower(name);
    if |name| >= 5 {
      if IsFlacName(name) {
        assert low[|low| - 5..] == ".flac";
      }
      if EndsWith(low, ".flac") {
        forall j | 0 <= j < 5 ensures low[|low| - 5 + j] == ".flac"[j] {
          assert low[|low| - 5..][j] == ".flac"[j];
        }
      }
    }
  }

  // ---------------------------------------------------------------------------
  // Specification of the per-file command sequence

  /** The commands of increment `i` after SelectAll: the tempo change, then the export when the name has a field 2. */
  function Round(base: string, bpm: int, i: nat): seq<Command>
    requires i < |INCREMENTS|
  {
    var target := bpm + INCREMENTS[i];
    match OutputName(base, target)
    case None => [ChangeTempo(bpm, target)]
    case Some(name) => [ChangeTempo(bpm, target), Export2(JoinPath(OUTPUT_DIR, name))]
  }

  function Rounds(base: string, bpm: int, n: nat): seq<Command>
    requires n <= |INCREMENTS|
  {
    if n == 0 then [] else Rounds(base, bpm, n - 1) + Round(base, bpm, n - 1)
  }

  /** The step of increment `i`; the export's reply is the one to the command after the tempo change. */
  function StepOf(base: string, bpm: int, replies: nat -> string, at: nat, i: nat): Step
    requires i < |INCREMENTS|
  {
    var target := bpm + INCREMENTS[i];
    match OutputName(base, target)
    case None => Skipped(target)
    case Some(name) =>
      Exported(target, JoinPath(OUTPUT_DIR, name), Contains(replies(at + |Rounds(base, bpm, i)| + 1), OK_TEXT))
  }

  function Steps(base: string, bpm: int, replies: nat -> string, at: nat, n: nat): seq<Step>
    requires n <= |INCREMENTS|
  {
    if n == 0 then [] else Steps(base, bpm, replies, at, n - 1) + [StepOf(base, bpm, replies, at, n - 1)]
  }

  /**
   * A file with a BPM that Audacity opened: SelectAll, then per increment
   * (in the order +5, +10, +15) a tempo change and, when the base has a
   * field 2, an export whose reply decides its step; finally Close.
   */
  predicate ProcessedAsSpecified(inputPath: string, replies: nat -> string, sent: nat, cmds: seq<Command>, steps: seq<Step>)
  {
    var base := FileBase(inputPath);
    var bpm := ExtractBpm(base);
    && bpm.Some? && bpm.value != 0
    && (|SplitOn(base, '_')| < 3 ==> ShortNameRun(inputPath, bpm.value, cmds, steps))
    && (|SplitOn(base, '_')| >= 3 ==> FullNameRun(inputPath, base, bpm.value, replies, sent, cmds, steps))
  }

  /** Without a field 2 every export attempt raises IndexError, which the try block catches. */
  predicate ShortNameRun(inputPath: string, bpm: int, cmds: seq<Command>, steps: seq<Step>)
  {
    && cmds == [Open(inputPath), SelectAll, ChangeTempo(bpm, bpm + 5), ChangeTempo(bpm, bpm + 10),
                ChangeTempo(bpm, bpm + 15), Close]
    && steps == [Skipped(bpm + 5), Skipped(bpm + 10), Skipped(bpm + 15)]
  }

  predicate FullNameRun(inputPath: string, base: string, bpm: int, replies: nat -> string, sent: nat,
                        cmds: seq<Command>, steps: seq<Step>)
    requires |SplitOn(base, '_')| >= 3
  {
    var out5 := JoinPath(OUTPUT_DIR, OutputName(base, bpm + 5).value);
    var out10 := JoinPath(OUTPUT_DIR, OutputName(base, bpm + 10).value);
    var out15 := JoinPath(OUTPUT_DIR, OutputName(base, bpm + 15).value);
    && cmds == [Open(inputPath), SelectAll, ChangeTempo(bpm, bpm + 5), Export2(out5),
                ChangeTempo(bpm, bpm + 10), Export2(out10), ChangeTempo(bpm, bpm + 15), Export2(out15), Close]
    && steps == [Exported(bpm + 5, out5, Contains(replies(sent + 3), OK_TEXT)),
                 Exported(bpm + 10, out10, Contains(replies(sent + 5), OK_TEXT)),
                 Exported(bpm + 15, out15, Contains(replies(sent + 7), OK_TEXT))]
  }

  /**
   * The loop over the increments (lines 71-90), for a file whose Open and
   * SelectAll took the commands before `at`; it ends in ZeroDivisionError at
   * once when the BPM is 0.
   */
  method AdjustTempos(filenameBase: string, inputBpm: int, replies: nat -> string, at: nat)
    returns (cmds: seq<Command>, steps: seq<Step>, crashed: bool)
    ensures crashed <==> inputBpm == 0
    ensures crashed ==> cmds == []
    ensures !crashed ==> cmds == Rounds(filenameBase, inputBpm, 3) && steps == Steps(filenameBase, inputBpm, replies, at, 3)
  {
    cmds, steps, crashed := [], [], false;
    for idx := 0 to |INCREMENTS|
      invariant cmds == Rounds(filenameBase, inputBpm, idx)
      invariant steps == Steps(filenameBase, inputBpm, replies, at, idx)
      invariant idx > 0 ==> inputBpm != 0
    {
      if inputBpm == 0 {
        // `percentage_change` divides by the input BPM outside the try block.
        crashed := true;
        return;
      }
      var round, step := AdjustTempo(filenameBase, inputBpm, replies, at + |cmds|, idx);
      cmds := cmds + round;
      steps := steps + [step];
    }
  }

  /**
   * One pass of that loop for increment `idx`, whose first command is
   * command number `sent`: the tempo change, then the export when the name
   * has a field 2, whose reply decides the step.
   */
  method AdjustTempo(filenameBase: string, inputBpm: int, replies: nat -> string, sent: nat, idx: nat)
    returns (round: seq<Command>, step: Step)
    requires idx < |INCREMENTS|
    ensures round == Round(filenameBase, inputBpm, idx)
    ensures forall at: nat :: sent == at + |Rounds(filenameBase, inputBpm, idx)| ==> step == StepOf(filenameBase, inputBpm, replies, at, idx)
  {
    var targetBpm := inputBpm + INCREMENTS[idx];
    round := [ChangeTempo(inputBpm, targetBpm)];
    var outputFilename := OutputName(filenameBase, targetBpm);
    if outputFilename.None? {
      step := Skipped(targetBpm);
    } else {
      var outputFilepath := JoinPath(OUTPUT_DIR, outputFilename.value);
      var exportResponse := replies(sent + |round|);
      round := round + [Export2(outputFilepath)];
      step := Exported(targetBpm, outputFilepath, Contains(exportResponse, OK_TEXT));
    }
  }

  /**
   * process_file_with_bpm_adjustments. `sent` is the number of commands the
   * run has sent before this call, so the reply to this call's k-th command
   * is `replies(sent + k)`.
   */
  method ProcessFile(inputPath: string, replies: nat -> string, sent: nat) returns (cmds: seq<Command>, outcome: Outcome)
    ensures FileRun(inputPath, replies, sent, cmds, outcome)
  {
    var fileName := Basename(inputPath);
    var filenameBase := SplitExt(fileName).0;
    var bpm := ExtractBpm(filenameBase);
    if bpm.None? {
      cmds := [];
      outcome := NoBpm;
      return;
    }
    var inputBpm := bpm.value;
    cmds := [Open(inputPath)];
    var response := replies(sent);
    if !Contains(response, OK_TEXT) {
      outcome := OpenFailed;
      return;
    }
    cmds, outcome := ProcessOpened(inputPath, filenameBase, inputBpm, replies, sent);
  }

  /**
   * Lines 67-94, once Audacity has opened the file (command number `sent`):
   * SelectAll, the increments, and Close. `cmds` is the whole command list of
   * the file, starting with its Open.
   */
  method ProcessOpened(inputPath: string, filenameBase: string, inputBpm: int, replies: nat -> string, sent: nat)
    returns (cmds: seq<Command>, outcome: Outcome)
    requires filenameBase == FileBase(inputPath) && ExtractBpm(filenameBase) == Some(inputBpm)
    ensures outcome == Crashed <==> inputBpm == 0
    ensures outcome == Crashed ==> cmds == [Open(inputPath), SelectAll]
    ensures outcome != Crashed ==> outcome.Processed? && ProcessedAsSpecified(inputPath, replies, sent, cmds, outcome.steps)
  {
    var rounds, steps, crashed := AdjustTempos(filenameBase, inputBpm, replies, sent + 2);
    if crashed {
      cmds, outcome := [Open(inputPath), SelectAll], Crashed;
      return;
    }
    cmds := [Open(inputPath), SelectAll] + rounds + [Close];
    outcome := Processed(steps);
    ProcessedRun(inputPath, inputBpm, replies, sent);
  }

  /** The commands and steps of a file with a non-zero BPM that Audacity opened are the specified ones. */
  lemma ProcessedRun(inputPath: string, bpm: int, replies: nat -> string, sent: nat)
    requires ExtractBpm(FileBase(inputPath)) == Some(bpm) && bpm != 0
    ensures ProcessedAsSpecified(inputPath, replies, sent,
                                 [Open(inputPath), SelectAll] + Rounds(FileBase(inputPath), bpm, 3) + [Close],
                                 Steps(FileBase(inputPath), bpm, replies, sent + 2, 3))
  {
    var base := FileBase(inputPath);
    if |SplitOn(base, '_')| < 3 {
      ShortRounds(inputPath, base, bpm, replies, sent);
    } else {
      FullRounds(inputPath, base, bpm, replies, sent);
    }
  }

  /** The three rounds of a base without field 2. */
  lemma ShortRounds(inputPath: string, base: string, bpm: int, replies: nat -> string, sent: nat)
    requires |SplitOn(base, '_')| < 3
    ensures ShortNameRun(inputPath, bpm, [Open(inputPath), SelectAll] + Rounds(base, bpm, 3) + [Close],
                         Steps(base, bpm, replies, sent + 2, 3))
  {
    assert Rounds(base, bpm, 1) == [ChangeTempo(bpm, bpm + 5)];
    assert Rounds(base, bpm, 2) == [ChangeTempo(bpm, bpm + 5), ChangeTempo(bpm, bpm + 10)];
    assert Steps(base, bpm, replies, sent + 2, 1) == [Skipped(bpm + 5)];
    assert Steps(base, bpm, replies, sent + 2, 2) == [Skipped(bpm + 5), Skipped(bpm + 10)];
  }

  /** Each round of a base without field 2 takes one command; with one, two. */
  lemma {:induction false} RoundsLength(base: string, bpm: int, n: nat)
    requires n <= |INCREMENTS|
    ensures |Rounds(base, bpm, n)| == if |SplitOn(base, '_')| >= 3 then 2 * n else n
  {
    if n > 0 {
      RoundsLength(base, bpm, n - 1);
    }
  }

  lemma ThreeRounds(base: string, bpm: int, replies: nat -> string, at: nat)
    ensures Rounds(base, bpm, 3) == Round(base, bpm, 0) + Round(base, bpm, 1) + Round(base, bpm, 2)
    ensures Steps(base, bpm, replies, at, 3) ==
              [StepOf(base, bpm, replies, at, 0), StepOf(base, bpm, replies, at, 1), StepOf(base, bpm, replies, at, 2)]
  {
    assert Rounds(base, bpm, 1) == Round(base, bpm, 0);
    assert Steps(base, bpm, replies, at, 1) == [StepOf(base, bpm, replies, at, 0)];
  }

  /** Round `i` of a base with field 2, with its export answered by reply `at + 2 * i + 1`. */
  lemma FullRound(base: string, bpm: int, replies: nat -> string, at: nat, i: nat)
    requires |SplitOn(base, '_')| >= 3 && i < |INCREMENTS|
    ensures var target := bpm + INCREMENTS[i];
            var out := JoinPath(OUTPUT_DIR, OutputName(base, target).value);
            && Round(base, bpm, i) == [ChangeTempo(bpm, target), Export2(out)]
            && StepOf(base, bpm, replies, at, i) == Exported(target, out, Contains(replies(at + 2 * i + 1), OK_TEXT))
  {
    var target := bpm + INCREMENTS[i];
    var out := OutputName(base, target);
    assert out.Some?;
    assert Round(base, bpm, i) == [ChangeTempo(bpm, target), Export2(JoinPath(OUTPUT_DIR, out.value))];
    RoundsLength(base, bpm, i);
    var before := |Rounds(base, bpm, i)|;
    assert before == 2 * i;
    assert StepOf(base, bpm, replies, at, i) ==
           Exported(target, JoinPath(OUTPUT_DIR, out.value), Contains(replies(at + before + 1), OK_TEXT));
  }

  /** The three rounds of a base with field 2: each export answers the command right after its tempo change. */
  lemma FullRounds(inputPath: string, base: string, bpm: int, replies: nat -> string, sent: nat)
    requires |SplitOn(base, '_')| >= 3
    ensures FullNameRun(inputPath, base, bpm, replies, sent, [Open(inputPath), SelectAll] + Rounds(base, bpm, 3) + [Close],
                        Steps(base, bpm, replies, sent + 2, 3))
  {
    ThreeRounds(base, bpm, replies, sent + 2);
    FullRoundsCommands(base, bpm, replies, sent + 2);
    FullRoundsSteps(base, bpm, replies, sent + 2);
    Seqs.Framed(Open(inputPath), SelectAll,
                ChangeTempo(bpm, bpm + 5), Export2(JoinPath(OUTPUT_DIR, OutputName(base, bpm + 5).value)),
                ChangeTempo(bpm, bpm + 10), Export2(JoinPath(OUTPUT_DIR, OutputName(base, bpm + 10).value)),
                ChangeTempo(bpm, bpm + 15), Export2(JoinPath(OUTPUT_DIR, OutputName(base, bpm + 15).value)),
                Close);
  }

  lemma FullRoundsCommands(base: string, bpm: int, replies: nat -> string, at: nat)
    requires |SplitOn(base, '_')| >= 3
    ensures Round(base, bpm, 0) + Round(base, bpm, 1) + Round(base, bpm, 2) ==
              [ChangeTempo(bpm, bpm + 5), Export2(JoinPath(OUTPUT_DIR, OutputName(base, bpm + 5).value)),
               ChangeTempo(bpm, bpm + 10), Export2(JoinPath(OUTPUT_DIR, OutputName(base, bpm + 10).value)),
               ChangeTempo(bpm, bpm + 15), Export2(JoinPath(OUTPUT_DIR, OutputName(base, bpm + 15).value))]
  {
    FullRound(base, bpm, replies, at, 0);
    FullRound(base, bpm, replies, at, 1);
    FullRound(base, bpm, replies, at, 2);
    Seqs.ThreePairs(ChangeTempo(bpm, bpm + 5), Export2(JoinPath(OUTPUT_DIR, OutputName(base, bpm + 5).value)),
                    ChangeTempo(bpm, bpm + 10), Export2(JoinPath(OUTPUT_DIR, OutputName(base, bpm + 10).value)),
                    ChangeTempo(bpm, bpm + 15), Export2(JoinPath(OUTPUT_DIR, OutputName(base, bpm + 15).value)));
  }

  lemma FullRoundsSteps(base: string, bpm: int, replies: nat -> string, at: nat)
    requires |SplitOn(base, '_')| >= 3
    ensures [StepOf(base, bpm, replies, at, 0), StepOf(base, bpm, replies, at, 1), StepOf(base, bpm, replies, at, 2)] ==
              [Exported(bpm + 5, JoinPath(OUTPUT_DIR, OutputName(base, bpm + 5).value), Contains(replies(at + 1), OK_TEXT)),
               Exported(bpm + 10, JoinPath(OUTPUT_DIR, OutputName(base, bpm + 10).value), Contains(replies(at + 3), OK_TEXT)),
               Exported(bpm + 15, JoinPath(OUTPUT_DIR, OutputName(base, bpm + 15).value), Contains(replies(at + 5), OK_TEXT))]
  {
    FullRound(base, bpm, replies, at, 0);
    FullRound(base, bpm, replies, at, 1);
    FullRound(base, bpm, replies, at, 2);
  }

  /**
   * One call of process_file_with_bpm_adjustments on `inputPath`, started
   * after `sent` commands: no BPM, no command; a failed Open, the Open alone;
   * a BPM of 0, Open and SelectAll before the crash; otherwise the specified run.
   */
  predicate FileRun(inputPath: string, replies: nat -> string, sent: nat, cmds: seq<Command>, outcome: Outcome)
  {
    var bpm := ExtractBpm(FileBase(inputPath));
    var openOk := Contains(replies(sent), OK_TEXT);
    match outcome
    case NoBpm => bpm.None? && cmds == []
    case OpenFailed => bpm.Some? && !openOk && cmds == [Open(inputPath)]
    case Crashed => bpm == Some(0) && openOk && cmds == [Open(inputPath), SelectAll]
    case Processed(steps) => openOk && ProcessedAsSpecified(inputPath, replies, sent, cmds, steps)
  }

  /**
   * The four ways a file's run ends, each exactly when its condition holds:
   * no BPM in the name, a failed Open, a BPM of 0 after a successful Open, or
   * the specified run.
   */
  lemma FileRunOutcome(inputPath: string, replies: nat -> string, sent: nat, cmds: seq<Command>, outcome: Outcome)
    requires FileRun(inputPath, replies, sent, cmds, outcome)
    ensures outcome == NoBpm <==> ExtractBpm(FileBase(inputPath)).None?
    ensures outcome == NoBpm ==> cmds == []
    ensures outcome == OpenFailed <==> ExtractBpm(FileBase(inputPath)).Some? && !Contains(replies(sent), OK_TEXT)
    ensures outcome == OpenFailed ==> cmds == [Open(inputPath)]
    ensures outcome == Crashed <==> ExtractBpm(FileBase(inputPath)) == Some(0) && Contains(replies(sent), OK_TEXT)
    ensures outcome == Crashed ==> cmds == [Open(inputPath), SelectAll]
    ensures outcome.Processed? ==> ProcessedAsSpecified(inputPath, replies, sent, cmds, outcome.steps)
  {
  }

  /** For each file and each behaviour of Audacity there is exactly one run: the commands and the outcome are determined. */
  lemma FileRunUnique(inputPath: string, replies: nat -> string, sent: nat,
                      cmds1: seq<Command>, outcome1: Outcome, cmds2: seq<Command>, outcome2: Outcome)
    requires FileRun(inputPath, replies, sent, cmds1, outcome1)
    requires FileRun(inputPath, replies, sent, cmds2, outcome2)
    ensures cmds1 == cmds2 && outcome1 == outcome2
  {
    if outcome1.Processed? && outcome2.Processed? {
      var base := FileBase(inputPath);
      if |SplitOn(base, '_')| < 3 {
        assert ShortNameRun(inputPath, ExtractBpm(base).value, cmds1, outcome1.steps);
        assert ShortNameRun(inputPath, ExtractBpm(base).value, cmds2, outcome2.steps);
      } else {
        assert FullNameRun(inputPath, base, ExtractBpm(base).value, replies, sent, cmds1, outcome1.steps);
        assert FullNameRun(inputPath, base, ExtractBpm(base).value, replies, sent, cmds2, outcome2.steps);
      }
    }
  }

  /** FileRun of a listed name, as a predicate on (name, outcome, first command number, commands). */
  function ListedRun(replies: nat -> string): (string, Outcome, nat, seq<Command>) -> bool
  {
    (name: string, outcome: Outcome, sent: nat, cmds: seq<Command>) => FileRun(JoinPath(INPUT_DIR, name), replies, sent, cmds, outcome)
  }

  /**
   * The files `names` were processed in order, file i with the commands
   * `runs[i]` and the outcome `outcomes[i]`, each run starting where the
   * previous ones ended in the stream of commands.
   */
  ghost predicate RunsFit(names: seq<string>, outcomes: seq<Outcome>, runs: seq<seq<Command>>, replies: nat -> string)
  {
    Seqs.Chained(ListedRun(replies), names, outcomes, runs)
  }

  /** File i of a fitting run is processed as FileRun says, from the command after those of the files before it. */
  lemma RunsFitEach(names: seq<string>, outcomes: seq<Outcome>, runs: seq<seq<Command>>, replies: nat -> string, i: nat)
    requires RunsFit(names, outcomes, runs, replies) && i < |runs|
    ensures FileRun(JoinPath(INPUT_DIR, names[i]), replies, |Seqs.Concat(runs[..i])|, runs[i], outcomes[i])
  {
    Seqs.ChainedEach(ListedRun(replies), names, outcomes, runs, i);
  }

  /**
   * One iteration of main's loop for a name that passed the filter: the file
   * in the input directory is processed, its commands following those of the
   * names processed before it, and a crash on it is reported.
   */
  method ProcessListed(fileName: string, replies: nat -> string, cmds: seq<Command>,
                       processed: seq<string>, outcomes: seq<Outcome>, ghost runs: seq<seq<Command>>)
    returns (cmds': seq<Command>, processed': seq<string>, outcomes': seq<Outcome>, ghost runs': seq<seq<Command>>,
             crashed: bool)
    requires cmds == Seqs.Concat(runs) && RunsFit(processed, outcomes, runs, replies) && Crashed !in outcomes
    ensures processed' == processed + [fileName] && |outcomes'| == |outcomes| + 1 && |runs'| == |runs| + 1
    ensures cmds' == Seqs.Concat(runs') && RunsFit(processed', outcomes', runs', replies)
    ensures crashed == (Crashed in outcomes')
    ensures forall i :: 0 <= i < |outcomes'| - 1 ==> outcomes'[i] != Crashed
  {
    var inputFilepath := JoinPath(INPUT_DIR, fileName);
    var fileCmds, outcome := ProcessFile(inputFilepath, replies, |cmds|);
    RunsFitAppend(processed, outcomes, runs, replies, fileName, outcome, fileCmds);
    Seqs.ConcatAppend(runs, fileCmds);
    Seqs.AppendAbsent(outcomes, outcome, Crashed);
    cmds', runs' := cmds + fileCmds, runs + [fileCmds];
    processed', outcomes' := processed + [fileName], outcomes + [outcome];
    crashed := outcome == Crashed;
  }

  /** A file processed after the others, from the end of their commands, extends a fitting run. */
  lemma RunsFitAppend(names: seq<string>, outcomes: seq<Outcome>, runs: seq<seq<Command>>, replies: nat -> string,
                      name: string, outcome: Outcome, run: seq<Command>)
    requires RunsFit(names, outcomes, runs, replies)
    requires FileRun(JoinPath(INPUT_DIR, name), replies, |Seqs.Concat(runs)|, run, outcome)
    ensures RunsFit(names + [name], outcomes + [outcome], runs + [run], replies)
  {
    Seqs.ChainedAppend(ListedRun(replies), names, outcomes, runs, name, outcome, run);
  }

  /**
   * One pass of main's loop: entry `n` of the listing is processed when it
   * passes the filter, its commands following those sent before.
   */
  method ProcessEntry(listing: seq<string>, n: nat, replies: nat -> string, cmds: seq<Command>,
                      processed: seq<string>, outcomes: seq<Outcome>, ghost runs: seq<seq<Command>>)
    returns (cmds': seq<Command>, processed': seq<string>, outcomes': seq<Outcome>, ghost runs': seq<seq<Command>>,
             crashed: bool)
    requires n < |listing| && processed == FlacNames(listing[..n]) && Crashed !in outcomes
    requires |outcomes| == |processed| == |runs|
    requires cmds == Seqs.Concat(runs) && RunsFit(processed, outcomes, runs, replies)
    ensures processed' == FlacNames(listing[..n + 1])
    ensures cmds' == Seqs.Concat(runs') && RunsFit(processed', outcomes', runs', replies)
    ensures |outcomes'| == |processed'| == |runs'|
    ensures crashed == (Crashed in outcomes')
    ensures forall i :: 0 <= i < |outcomes'| - 1 ==> outcomes'[i] != Crashed
  {
    var fileName := listing[n];
    FlacNamesStep(listing, n);
    if IsFlacName(fileName) {
      cmds', processed', outcomes', runs', crashed := ProcessListed(fileName, replies, cmds, processed, outcomes, runs);
    } else {
      cmds', processed', outcomes', runs', crashed := cmds, processed, outcomes, runs, false;
    }
  }

  /**
   * main: unless the input directory is missing, every listed name whose
   * lower-cased form ends in `.flac` is processed in listing order, each
   * file's commands following the previous file's; the ZeroDivisionError of a
   * file with BPM 0 ends the run.
   */
  method ProcessDirectory(inputExists: bool, listing: seq<string>, replies: nat -> string)
    returns (cmds: seq<Command>, processed: seq<string>, outcomes: seq<Outcome>, ghost runs: seq<seq<Command>>)
    ensures !inputExists ==> cmds == [] && processed == []
    ensures IsPrefix(processed, FlacNames(listing))
    ensures inputExists && Crashed !in outcomes ==> processed == FlacNames(listing)
    ensures forall i :: 0 <= i < |outcomes| - 1 ==> outcomes[i] != Crashed
    ensures |outcomes| == |processed| && cmds == Seqs.Concat(runs)
    ensures RunsFit(processed, outcomes, runs, replies)
  {
    cmds, processed, outcomes, runs := [], [], [], [];
    if !inputExists {
      return;
    }
    var n, crashed := 0, false;
    while n < |listing| && !crashed
      invariant 0 <= n <= |listing|
      invariant |outcomes| == |processed| == |runs|
      invariant processed == FlacNames(listing[..n])
      invariant crashed == (Crashed in outcomes)
      invariant forall i :: 0 <= i < |outcomes| - 1 ==> outcomes[i] != Crashed
      invariant cmds == Seqs.Concat(runs)
      invariant RunsFit(processed, outcomes, runs, replies)
    {
      cmds, processed, outcomes, runs, crashed := ProcessEntry(listing, n, replies, cmds, processed, outcomes, runs);
      n := n + 1;
    }
    FilterPrefix(listing, n);
    assert !crashed ==> listing[..n] == listing;
  }

  predicate IsPrefix<T(==)>(a: seq<T>, b: seq<T>)
  {
    |a| <= |b| && a == b[..|a|]
  }

  /** The names of `listing` that main's filter lets through, in listing order. */
  function FlacNames(listing: seq<string>): seq<string>
    decreases |listing|
  {
    if listing == [] then []
    else
      var last := listing[|listing| - 1];
      FlacNames(listing[..|listing| - 1]) + if IsFlacName(last) then [last] else []
  }

  lemma FlacNamesStep(s: seq<string>, n: nat)
    requires n < |s|
    ensures FlacNames(s[..n + 1]) == FlacNames(s[..n]) + if IsFlacName(s[n]) then [s[n]] else []
  {
    assert s[..n + 1][..n] == s[..n];
  }

  /** Filtering a prefix gives a prefix of the filtered sequence. */
  lemma {:induction false} FilterPrefix(s: seq<string>, n: nat)
    requires n <= |s|
    ensures IsPrefix(FlacNames(s[..n]), FlacNames(s))
    decreases |s| - n
  {
    if n < |s| {
      FilterPrefix(s, n + 1);
      FlacNamesStep(s, n);
      var shorter := FlacNames(s[..n]);
      var longer := FlacNames(s[..n + 1]);
      var all := FlacNames(s);
      assert IsPrefix(shorter, longer);
      assert shorter == longer[..|shorter|] == all[..|longer|][..|shorter|] == all[..|shorter|];
    } else {
      assert s[..n] == s;
    }
  }

  // ---------------------------------------------------------------------------
  // Properties of the names

  /** `int(name.split('_')[1])` reads back the BPM written between the first two underscores. */
  lemma ExtractBpmRoundTrip(a: string, bpm: int, c: string)
    requires '_' !in a && '_' !in c
    ensures ExtractBpm(a + "_" + IntToString(bpm) + "_" + c) == Some(bpm)
  {
    NumeralHasNoUnderscore(bpm);
    NameSplits(a, IntToString(bpm), c);
    ParseIntRoundTrip(bpm);
  }

  /**
   * An exported file fed back to the script is taken for a file of the target
   * BPM, passes main's filter, and would be exported again under the same
   * field 0 and field 2.
   */
  lemma ReprocessReadsTarget(base: string, target: int, next: int)
    requires |SplitOn(base, '_')| >= 3 && NoSep(base)
    ensures var name := OutputName(base, target).value;
            && IsFlacName(name)
            && ExtractBpm(SplitExt(name).0) == Some(target)
            && OutputName(SplitExt(name).0, next) == OutputName(base, next)
  {
    var name := OutputName(base, target).value;
    OutputNameFields(base, target);
    var newBase := SplitExt(name).0;
    BpmOfField(newBase, target);
    SameOutputName(newBase, base, next);
    FlacNamePasses(name);
  }

  lemma BpmOfField(base: string, bpm: int)
    requires |SplitOn(base, '_')| >= 2 && SplitOn(base, '_')[1] == IntToString(bpm)
    ensures ExtractBpm(base) == Some(bpm)
  {
    ParseIntRoundTrip(bpm);
  }

  /** Bases that agree on fields 0 and 2 give the same export names. */
  lemma SameOutputName(a: string, b: string, target: int)
    requires |SplitOn(a, '_')| >= 3 && |SplitOn(b, '_')| >= 3
    requires SplitOn(a, '_')[0] == SplitOn(b, '_')[0] && SplitOn(a, '_')[2] == SplitOn(b, '_')[2]
    ensures OutputName(a, target) == OutputName(b, target)
  {
  }

  /** A name ending in `.flac` passes main's filter. */
  lemma FlacNamePasses(name: string)
    requires EndsWith(name, ".flac")
    ensures IsFlacName(name)
  {
    assert forall j :: 0 <= j < 5 ==> name[|name| - 5 + j] == ".flac"[j];
  }
}
