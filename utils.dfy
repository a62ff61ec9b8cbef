/** Helpers of common/utils.py: the derived settings `check_config` adds to
    the parsed arguments, and the choice of old checkpoints that
    `rotate_checkpoints` deletes. The file system is abstracted: the
    checkpoint directories found by the glob are given as a list, and the
    result is the list of directories removed, in order. */
module Utils {
  import opened Wrappers
  import opened PyStr
  import opened Sorting

  // ---------------------------------------------------------------------
  // check_config
  // ---------------------------------------------------------------------

  datatype ConfigError = OutputDirNotEmpty   // the ValueError of train mode

  /** Where the model is loaded from: the base model name when training,
      the trained model's path when decoding, nothing otherwise. */
  function ModelLoc(mode: string, modelName: string, modelPath: string): string {
    if mode == "train" then modelName
    else if mode == "decode" then modelPath
    else ""
  }

  /** The parsed command line, with the fields `check_config` derives. */
  class Args {
    const mode: string
    const modelType: string
    const modelName: string
    const modelPath: string
    const overwriteOutputDir: bool
    var encDec: bool
    var modelLoc: string

    constructor (mode: string, modelType: string, modelName: string, modelPath: string, overwriteOutputDir: bool)
      ensures this.mode == mode && this.modelType == modelType
      ensures this.modelName == modelName && this.modelPath == modelPath
      ensures this.overwriteOutputDir == overwriteOutputDir
      ensures encDec == false && modelLoc == ""
    {
      this.mode := mode;
      this.modelType := modelType;
      this.modelName := modelName;
      this.modelPath := modelPath;
      this.overwriteOutputDir := overwriteOutputDir;
      encDec := false;
      modelLoc := "";
    }

    /** `check_config`: `enc_dec` holds exactly for T5 models and
        `model_loc` follows the mode. `outputDir` lists the entries of the
        output directory beforehand (empty when it does not exist);
        `after` is the listing once the `log` directory has been made. The
        emptiness test runs after that, so training is refused exactly
        when overwriting is not allowed. */
    method CheckConfig(outputDir: set<string>) returns (r: Result<(), ConfigError>, after: set<string>)
      modifies this
      ensures encDec <==> modelType == "t5"
      ensures modelLoc == ModelLoc(mode, modelName, modelPath)
      ensures mode == "train" ==> modelLoc == modelName
      ensures mode == "decode" ==> modelLoc == modelPath
      ensures mode != "train" && mode != "decode" ==> modelLoc == ""
      ensures after == outputDir + {"log"}
      ensures r.Failure? <==> mode == "train" && !overwriteOutputDir
    {
      encDec := modelType in ["t5"];
      after := outputDir + {"log"};
      if mode == "train" {
        modelLoc := modelName;
      } else if mode == "decode" {
        modelLoc := modelPath;
      } else {
        modelLoc := "";
      }
      if mode == "train" && |after| > 0 && !overwriteOutputDir {
        return Failure(OutputDirNotEmpty), after;
      }
      return Success(()), after;
    }
  }

  // ---------------------------------------------------------------------
  // The step number of a checkpoint path: re.match('.*<prefix>-([0-9]+)')
  // ---------------------------------------------------------------------

  /** Where the first line ends: `.` does not match a newline, so `.*`
      cannot reach past it. */
  function LineEnd(s: string): (r: nat)
    ensures r <= |s|
    ensures forall k :: 0 <= k < r ==> s[k] != '\n'
  {
    match Find(s, "\n")
    case None =>
      NoNewlineBefore(s, |s|);
      |s|
    case Some(i) =>
      NoNewlineBefore(s, i);
      i
  }

  lemma NoNewlineBefore(s: string, i: nat)
    requires i <= |s|
    requires forall j :: 0 <= j < i ==> !OccursAt(s, "\n", j)
    ensures forall k :: 0 <= k < i ==> s[k] != '\n'
  {
    forall k | 0 <= k < i ensures s[k] != '\n' {
      assert !OccursAt(s, "\n", k);
      assert s[k..k + 1] == [s[k]];
    }
  }

  /** The rest of the pattern, `<prefix>-[0-9]`, matches at `i`. */
  predicate StepAt(path: string, prefix: string, i: nat) {
    OccursAt(path, prefix + "-", i) && i + |prefix| + 1 < |path| && IsDigit(path[i + |prefix| + 1])
  }

  /** The greedy `.*` backtracks from the longest prefix: the match starts
      at the last position up to `i` where the rest matches. */
  function LastStepAt(path: string, prefix: string, i: nat): (r: Option<nat>)
    ensures r.Some? ==> r.value <= i && StepAt(path, prefix, r.value)
    ensures r.Some? ==> forall j :: r.value < j <= i ==> !StepAt(path, prefix, j)
    ensures r.None? ==> forall j :: 0 <= j <= i ==> !StepAt(path, prefix, j)
  {
    if StepAt(path, prefix, i) then Some(i)
    else if i == 0 then None
    else LastStepAt(path, prefix, i - 1)
  }

  /** The greedy `[0-9]+`: the length of the run of digits at `j`. */
  function DigitRun(s: string, j: nat): (r: nat)
    requires j <= |s|
    ensures j + r <= |s| && AllDigits(s[j..j + r])
    ensures j + r == |s| || !IsDigit(s[j + r])
    decreases |s| - j
  {
    if j < |s| && IsDigit(s[j]) then
      var rest := DigitRun(s, j + 1);
      assert s[j..j + 1 + rest] == [s[j]] + s[j + 1..j + 1 + rest];
      1 + rest
    else 0
  }

  /** `int(m.groups()[0])` when the pattern matches the path, else nothing. */
  function CheckpointStep(path: string, prefix: string): Option<nat> {
    var m := LastStepAt(path, prefix, LineEnd(path));
    if m.None? then None else Some(StepValue(path, m.value + |prefix| + 1))
  }

  /** The number the digit run at `j` spells. */
  function StepValue(path: string, j: nat): nat
    requires j <= |path|
  {
    DigitsValue(path[j..j + DigitRun(path, j)])
  }

  /** A matched path holds `<prefix>-` followed by digits on its first line. */
  lemma CheckpointStepShape(path: string, prefix: string)
    requires CheckpointStep(path, prefix).Some?
    ensures exists i :: 0 <= i <= LineEnd(path) && StepAt(path, prefix, i)
  {
    var i := LastStepAt(path, prefix, LineEnd(path)).value;
    assert StepAt(path, prefix, i);
  }

  lemma StepAtName(dir: string, prefix: string, digits: string)
    requires digits != [] && AllDigits(digits)
    ensures var path := dir + prefix + "-" + digits;
      && StepAt(path, prefix, |dir|)
      && forall j :: |dir| < j <= |path| ==> !StepAt(path, prefix, j)
  {
    var path := dir + prefix + "-" + digits;
    assert path[|dir|..|dir| + |prefix + "-"|] == prefix + "-";
    assert path[|dir| + |prefix| + 1] == digits[0];
    forall j | |dir| < j <= |path| ensures !StepAt(path, prefix, j) {
      var k := j + |prefix|;
      if k < |path| {
        assert path[k] == digits[k - (|dir| + |prefix| + 1)];
        assert path[j..k + 1][|prefix|] == path[k];
      }
    }
  }

  lemma {:induction false} LastStepAtFinds(path: string, prefix: string, i0: nat, i: nat)
    requires i0 <= i && StepAt(path, prefix, i0)
    requires forall j :: i0 < j <= i ==> !StepAt(path, prefix, j)
    ensures LastStepAt(path, prefix, i) == Some(i0)
    decreases i
  {
    if i > i0 {
      LastStepAtFinds(path, prefix, i0, i - 1);
    }
  }

  lemma {:induction false} DigitRunToEnd(s: string, j: nat)
    requires j <= |s| && AllDigits(s[j..])
    ensures DigitRun(s, j) == |s| - j
    decreases |s| - j
  {
    if j < |s| {
      assert s[j] == s[j..][0];
      assert s[j + 1..] == s[j..][1..];
      DigitRunToEnd(s, j + 1);
    }
  }

  /** Reads back the step of a checkpoint saved as `<dir><prefix>-<step>`,
      whatever the directory part holds, as long as neither it nor the
      prefix contains a newline. */
  lemma CheckpointStepOfName(dir: string, prefix: string, step: nat)
    requires '\n' !in dir && '\n' !in prefix
    ensures CheckpointStep(dir + prefix + "-" + Decimal(step), prefix) == Some(step)
  {
    CheckpointStepOfDigits(dir, prefix, Decimal(step));
    DecimalRoundTrip(step);
  }

  lemma CheckpointStepOfDigits(dir: string, prefix: string, digits: string)
    requires '\n' !in dir && '\n' !in prefix
    requires digits != [] && AllDigits(digits)
    ensures CheckpointStep(dir + prefix + "-" + digits, prefix) == Some(DigitsValue(digits))
  {
    var path := dir + prefix + "-" + digits;
    SingleLineName(dir, prefix, digits);
    NameMatchesAt(dir, prefix, digits);
    NameDigits(dir, prefix, digits);
    ReadStep(path, prefix, |dir|, digits);
  }

  lemma ReadStep(path: string, prefix: string, i: nat, digits: string)
    requires AllDigits(digits)
    requires LineEnd(path) == |path| && LastStepAt(path, prefix, |path|) == Some(i)
    requires var j := i + |prefix| + 1;
      j + |digits| == |path| && path[j..] == digits && DigitRun(path, j) == |digits|
    ensures CheckpointStep(path, prefix) == Some(DigitsValue(digits))
  {
    assert LastStepAt(path, prefix, LineEnd(path)) == Some(i);
    MatchedStep(path, prefix, i);
    var j := i + |prefix| + 1;
    StepValueOf(path, j, digits);
    assert CheckpointStep(path, prefix) == Some(StepValue(path, j));
  }

  lemma StepValueOf(path: string, j: nat, digits: string)
    requires AllDigits(digits)
    requires j + |digits| == |path| && path[j..] == digits && DigitRun(path, j) == |digits|
    ensures StepValue(path, j) == DigitsValue(digits)
  {
    assert path[j..j + DigitRun(path, j)] == digits;
  }

  lemma MatchedStep(path: string, prefix: string, i: nat)
    requires LastStepAt(path, prefix, LineEnd(path)) == Some(i)
    ensures i + |prefix| + 1 <= |path|
    ensures CheckpointStep(path, prefix) == Some(StepValue(path, i + |prefix| + 1))
  {
    assert StepAt(path, prefix, i);
  }

  lemma SingleLineName(dir: string, prefix: string, digits: string)
    requires '\n' !in dir && '\n' !in prefix && AllDigits(digits)
    ensures LineEnd(dir + prefix + "-" + digits) == |dir + prefix + "-" + digits|
  {
    var path := dir + prefix + "-" + digits;
    assert '\n' !in path by {
      assert forall k :: 0 <= k < |digits| ==> IsDigit(digits[k]);
      assert path == dir + prefix + ("-" + digits);
    }
    AbsentChar(path, '\n');
  }

  lemma NameMatchesAt(dir: string, prefix: string, digits: string)
    requires digits != [] && AllDigits(digits)
    ensures var path := dir + prefix + "-" + digits;
      LastStepAt(path, prefix, |path|) == Some(|dir|)
  {
    var path := dir + prefix + "-" + digits;
    StepAtName(dir, prefix, digits);
    LastStepAtFinds(path, prefix, |dir|, |path|);
  }

  lemma NameDigits(dir: string, prefix: string, digits: string)
    requires AllDigits(digits)
    ensures var path := dir + prefix + "-" + digits;
      var j := |dir| + |prefix| + 1;
      j + |digits| == |path| && path[j..] == digits && DigitRun(path, j) == |digits|
  {
    var path := dir + prefix + "-" + digits;
    var j := |dir| + |prefix| + 1;
    assert path[j..] == digits;
    DigitRunToEnd(path, j);
  }

  // ---------------------------------------------------------------------
  // rotate_checkpoints
  // ---------------------------------------------------------------------

  /** `(step, path)` for every globbed path the pattern matches, in glob
      order. */
  function Candidates(paths: seq<string>, prefix: string): seq<(int, string)> {
    if paths == [] then []
    else
      var init := Candidates(paths[..|paths| - 1], prefix);
      var last := paths[|paths| - 1];
      match CheckpointStep(last, prefix)
      case None => init
      case Some(step) => init + [(step as int, last)]
  }

  function PathsOf(s: seq<(int, string)>): (r: seq<string>)
    ensures |r| == |s|
  {
    seq(|s|, i requires 0 <= i < |s| => s[i].1)
  }

  /** The directories `rotate_checkpoints` removes, oldest first: none
      unless a positive limit is set and exceeded by the globbed paths;
      otherwise the matched checkpoints sorted by `(step, path)`, minus as
      many of the newest as the limit keeps. */
  function ToDelete(limit: Option<int>, paths: seq<string>, prefix: string): seq<string> {
    Rotation(limit, |paths|, Candidates(paths, prefix))
  }

  /** The selection itself, given the number of globbed paths and the
      matched `(step, path)` candidates. */
  function Rotation(limit: Option<int>, globbed: nat, cands: seq<(int, string)>): seq<string> {
    if limit.None? || limit.value <= 0 || globbed <= limit.value then []
    else
      var sorted := Sort(cands, IntStrLe);
      PathsOf(sorted[..Max0(|sorted| - limit.value)])
  }

  /** `rotate_checkpoints` with `use_mtime=False`, given the glob's result;
      returns the `rmtree` calls in order. */
  method RotateCheckpoints(limit: Option<int>, paths: seq<string>, prefix: string)
    returns (deleted: seq<string>)
    ensures deleted == ToDelete(limit, paths, prefix)
  {
    deleted := [];
    if limit.None? || limit.value <= 0 {
      return;
    }
    if |paths| <= limit.value {
      return;
    }
    var ordering := CollectCandidates(paths, prefix);
    var sorted := PathsOf(Sort(ordering, IntStrLe));
    var count := Max0(|sorted| - limit.value);
    var toDelete := sorted[..count];
    var k := 0;
    while k < |toDelete|
      invariant 0 <= k <= |toDelete|
      invariant deleted == toDelete[..k]
    {
      deleted := deleted + [toDelete[k]];
      k := k + 1;
    }
  }

  /** The loop over the globbed paths that keeps the matched ones with
      their steps. */
  method CollectCandidates(paths: seq<string>, prefix: string) returns (ordering: seq<(int, string)>)
    ensures ordering == Candidates(paths, prefix)
  {
    ordering := [];
    var i := 0;
    while i < |paths|
      invariant 0 <= i <= |paths|
      invariant ordering == Candidates(paths[..i], prefix)
    {
      assert paths[..i + 1][..i] == paths[..i];
      var step := CheckpointStep(paths[i], prefix);
      if step.Some? {
        ordering := ordering + [(step.value as int, paths[i])];
      }
      i := i + 1;
    }
    assert paths[..|paths|] == paths;
  }

  lemma {:induction false} CandidatesMatch(paths: seq<string>, prefix: string)
    ensures forall c :: c in Candidates(paths, prefix) ==>
      c.1 in paths && c.0 >= 0 && CheckpointStep(c.1, prefix) == Some(c.0 as nat)
  {
    if paths != [] {
      CandidatesMatch(paths[..|paths| - 1], prefix);
      forall c | c in Candidates(paths[..|paths| - 1], prefix) ensures c.1 in paths {
        assert c.1 in paths[..|paths| - 1];
      }
    }
  }

  /** Every globbed path the pattern matches is a candidate, with its step. */
  lemma {:induction false} CandidatesComplete(paths: seq<string>, prefix: string, p: string)
    requires p in paths && CheckpointStep(p, prefix).Some?
    ensures (CheckpointStep(p, prefix).value as int, p) in Candidates(paths, prefix)
  {
    if p != paths[|paths| - 1] {
      assert p in paths[..|paths| - 1] by {
        var i :| 0 <= i < |paths| && paths[i] == p;
        assert paths[..|paths| - 1][i] == p;
      }
      CandidatesComplete(paths[..|paths| - 1], prefix, p);
    }
  }

  /** Only checkpoint directories are removed: every deleted path was
      globbed and matched the pattern, and is removed once. */
  lemma DeletesOnlyCheckpoints(limit: Option<int>, paths: seq<string>, prefix: string)
    ensures forall d :: d in ToDelete(limit, paths, prefix) ==> d in paths && CheckpointStep(d, prefix).Some?
  {
    var cands := Candidates(paths, prefix);
    CandidatesMatch(paths, prefix);
    RotationFromCandidates(limit, |paths|, cands);
  }

  lemma RotationFromCandidates(limit: Option<int>, globbed: nat, cands: seq<(int, string)>)
    ensures forall d :: d in Rotation(limit, globbed, cands) ==> exists c :: c in cands && c.1 == d
  {
    if !(limit.None? || limit.value <= 0 || globbed <= limit.value) {
      var sorted := Sort(cands, IntStrLe);
      var k := Max0(|sorted| - limit.value);
      forall d | d in Rotation(limit, globbed, cands) ensures exists c :: c in cands && c.1 == d {
        var i :| 0 <= i < k && PathsOf(sorted[..k])[i] == d;
        assert sorted[i] in multiset(sorted);
        assert sorted[i] in cands;
      }
    }
  }

  /** The limit is honoured: once the globbed paths exceed it, exactly as
      many matched checkpoints survive as the limit allows. */
  lemma RotationKeepsLimit(limit: int, globbed: nat, cands: seq<(int, string)>)
    requires 0 < limit < globbed
    ensures |Rotation(Some(limit), globbed, cands)| == Max0(|cands| - limit)
    ensures |cands| - |Rotation(Some(limit), globbed, cands)| == if |cands| <= limit then |cands| else limit
  {
  }

  /** Nothing is removed while the globbed paths stay within the limit, or
      when no positive limit is set. */
  lemma RotationWithinLimit(limit: Option<int>, globbed: nat, cands: seq<(int, string)>)
    requires limit.None? || limit.value <= 0 || globbed <= limit.value
    ensures Rotation(limit, globbed, cands) == []
  {
  }

  lemma SortedSteps(sorted: seq<(int, string)>)
    requires SortedBy(sorted, IntStrLe)
    ensures forall i, j :: 0 <= i < j < |sorted| ==> sorted[i].0 <= sorted[j].0
  {
  }

  lemma SortedByStepAndPath(cands: seq<(int, string)>)
    ensures SortedBy(Sort(cands, IntStrLe), IntStrLe)
  {
    IntStrLeTotalPreorder();
    SortSorted(cands, IntStrLe);
  }

  /** Oldest first: the removed checkpoints are a prefix of the candidates
      sorted by `(step, path)`, so the step of every deleted checkpoint is
      at most the step of every surviving one. */
  lemma DeletesOldest(limit: int, globbed: nat, cands: seq<(int, string)>)
    requires 0 < limit < globbed
    ensures var sorted := Sort(cands, IntStrLe);
      var k := Max0(|sorted| - limit);
      && Rotation(Some(limit), globbed, cands) == PathsOf(sorted[..k])
      && SortedBy(sorted, IntStrLe)
      && forall i, j :: 0 <= i < k <= j < |sorted| ==> sorted[i].0 <= sorted[j].0
  {
    SortedByStepAndPath(cands);
    RotationPrefix(limit, globbed, cands);
  }

  /** Oldest first, over the globbed paths themselves: every matched path
      that survives has a step at least that of every deleted path. */
  lemma DeletesOldestMatched(limit: int, paths: seq<string>, prefix: string)
    requires 0 < limit < |paths|
    ensures forall d, p ::
      d in ToDelete(Some(limit), paths, prefix) && p in paths && CheckpointStep(p, prefix).Some?
      && p !in ToDelete(Some(limit), paths, prefix)
      ==> CheckpointStep(d, prefix).Some? && CheckpointStep(d, prefix).value <= CheckpointStep(p, prefix).value
  {
    var deleted := ToDelete(Some(limit), paths, prefix);
    forall d, p | d in deleted && p in paths && CheckpointStep(p, prefix).Some? && p !in deleted
      ensures CheckpointStep(d, prefix).Some? && CheckpointStep(d, prefix).value <= CheckpointStep(p, prefix).value
    {
      DeletedBeforeSurvivor(limit, paths, prefix, d, p);
    }
  }

  lemma DeletedBeforeSurvivor(limit: int, paths: seq<string>, prefix: string, d: string, p: string)
    requires 0 < limit < |paths|
    requires d in ToDelete(Some(limit), paths, prefix)
    requires p in paths && CheckpointStep(p, prefix).Some? && p !in ToDelete(Some(limit), paths, prefix)
    ensures CheckpointStep(d, prefix).Some? && CheckpointStep(d, prefix).value <= CheckpointStep(p, prefix).value
  {
    var cands := Candidates(paths, prefix);
    CandidatesComplete(paths, prefix, p);
    var e := RotatedBefore(limit, |paths|, cands, d, (CheckpointStep(p, prefix).value as int, p));
    CandidatesMatch(paths, prefix);
  }

  /** A removed path comes from a candidate whose step is at most that of
      any candidate that is kept. */
  lemma RotatedBefore(limit: int, globbed: nat, cands: seq<(int, string)>, d: string, c: (int, string))
    returns (e: (int, string))
    requires 0 < limit < globbed
    requires d in Rotation(Some(limit), globbed, cands)
    requires c in cands && c.1 !in Rotation(Some(limit), globbed, cands)
    ensures e in cands && e.1 == d && e.0 <= c.0
  {
    var sorted := Sort(cands, IntStrLe);
    var k := Max0(|sorted| - limit);
    RotationPrefix(limit, globbed, cands);
    SortSameElements(cands);
    e := PrefixBefore(sorted, k, d, c);
  }

  lemma RotationPrefix(limit: int, globbed: nat, cands: seq<(int, string)>)
    requires 0 < limit < globbed
    ensures var sorted := Sort(cands, IntStrLe);
      var k := Max0(|sorted| - limit);
      && Rotation(Some(limit), globbed, cands) == PathsOf(sorted[..k])
      && forall i, j :: 0 <= i < k <= j < |sorted| ==> sorted[i].0 <= sorted[j].0
  {
    SortedByStepAndPath(cands);
    SortedSteps(Sort(cands, IntStrLe));
  }

  lemma SortSameElements(cands: seq<(int, string)>)
    ensures forall x :: x in Sort(cands, IntStrLe) <==> x in cands
  {
    var sorted := Sort(cands, IntStrLe);
    forall x ensures x in sorted <==> x in cands {
      assert x in sorted <==> x in multiset(sorted);
    }
  }

  /** In a sequence whose first `k` steps are at most all later ones, a
      path among the first `k` has a step at most that of any entry whose
      path is not among them. */
  lemma PrefixBefore(s: seq<(int, string)>, k: nat, d: string, c: (int, string)) returns (e: (int, string))
    requires k <= |s|
    requires forall i, j :: 0 <= i < k <= j < |s| ==> s[i].0 <= s[j].0
    requires d in PathsOf(s[..k]) && c in s && c.1 !in PathsOf(s[..k])
    ensures e in s && e.1 == d && e.0 <= c.0
  {
    var i :| 0 <= i < k && PathsOf(s[..k])[i] == d;
    var j :| 0 <= j < |s| && s[j] == c;
    PrefixPaths(s, k);
    e := s[i];
  }

  /** The paths of the first `k` entries are among the first `k` paths. */
  lemma PrefixPaths(s: seq<(int, string)>, k: nat)
    requires k <= |s|
    ensures forall i :: 0 <= i < k ==> s[i].1 in PathsOf(s[..k])
  {
    forall i | 0 <= i < k ensures s[i].1 in PathsOf(s[..k]) {
      assert PathsOf(s[..k])[i] == s[i].1;
    }
  }
}
