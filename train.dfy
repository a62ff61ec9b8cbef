/** Training-loop control (components/train.py). The model, optimiser and
    evaluator are abstracted: the loss of batch `step` in epoch `e` and the
    dev loss of epoch `e` are given functions, and a loader is the sequence
    of its batch sizes. What is modelled is the control state the loop
    keeps: weighted epoch losses, the best loss, the history lists, the
    patience counter and early stop, the checkpoint saves, and the buffers
    of per-sample weights used by self-paced learning (SPL). */
module Train {
  import opened Wrappers
  import opened PyStr
  import Curriculum

  // ---------------------------------------------------------------------
  // Dispatch on the curriculum name (`train`)
  // ---------------------------------------------------------------------

  /** The regulariser's initial `lam`. */
  const InitialLam: real := 0.3

  datatype SplConfig = SplConfig(regularizer: string, lam: real)

  datatype Mode =
    | OneBucket(spl: Option<SplConfig>)
    | Bucketed(policy: Curriculum.Policy)

  datatype DispatchError = InvalidCurriculumName

  function Last(xs: seq<string>): string
    requires xs != []
  {
    xs[|xs| - 1]
  }

  /** The training mode `train` picks for `curriculum_name`. */
  function SelectMode(name: string): Result<Mode, DispatchError> {
    if Contains(name, "spl") then Success(OneBucket(Some(SplConfig(Last(Split(name, ".")), InitialLam))))
    else if name == "NC" then Success(OneBucket(None))
    else if name == "one_pass" then Success(Bucketed(Curriculum.OnePass))
    else if name == "baby_step" then Success(Bucketed(Curriculum.BabyStep))
    else Failure(InvalidCurriculumName)
  }

  /** Single-bucket training for `NC` and for every name mentioning `spl`
      (the `spl` test wins), the bucket curriculum for exactly `one_pass`
      and `baby_step`, an error for anything else. */
  lemma SelectModeCases(name: string)
    ensures SelectMode(name).Success? && SelectMode(name).value.OneBucket?
        <==> name == "NC" || Contains(name, "spl")
    ensures SelectMode(name).Success? && SelectMode(name).value.OneBucket? ==>
        (SelectMode(name).value.spl.Some? <==> Contains(name, "spl"))
    ensures SelectMode(name).Success? && SelectMode(name).value.Bucketed?
        <==> !Contains(name, "spl") && (name == "one_pass" || name == "baby_step")
    ensures SelectMode(name).Success? && SelectMode(name).value.Bucketed? ==>
        Curriculum.PolicyOf(name) == Some(SelectMode(name).value.policy)
    ensures SelectMode(name).Failure?
        <==> !Contains(name, "spl") && name != "NC" && name != "one_pass" && name != "baby_step"
  {
    if name == "NC" {
      AbsentChar("NC", 's');
      assert !Contains("NC", "spl") by { NotContainsLonger("NC", "s", "pl"); }
    }
  }

  lemma NotContainsLonger(s: string, p: string, q: string)
    requires !Contains(s, p)
    ensures !Contains(s, p + q)
  {
    forall j | OccursAt(s, p + q, j) ensures OccursAt(s, p, j) {
      assert s[j..j + |p|] == (p + q)[..|p|];
    }
    ContainsIff(s, p);
    ContainsIff(s, p + q);
  }

  /** The regulariser is named by what follows the last `.`: for
      `<anything>.<name>` with no `.` in `<name>` it is `<name>`. */
  lemma {:induction false} SplRegularizerName(prefix: string, reg: string)
    requires !Contains(reg, ".")
    ensures Last(Split(prefix + "." + reg, ".")) == reg
    decreases |prefix|
  {
    var s := prefix + "." + reg;
    var i := FirstDot(prefix, reg);
    SplitAtFirst(s, ".", i);
    LastOfCons(s[..i], Split(s[i + 1..], "."));
    if i == |prefix| {
      assert s[i + 1..] == reg;
      SplitSingle(reg, ".");
    } else {
      var rest := prefix[i + 1..];
      assert s[i + 1..] == rest + "." + reg;
      SplRegularizerName(rest, reg);
    }
  }

  lemma FirstDot(prefix: string, reg: string) returns (i: nat)
    ensures Find(prefix + "." + reg, ".") == Some(i) && i <= |prefix|
  {
    var s := prefix + "." + reg;
    assert OccursAt(s, ".", |prefix|);
    i := Find(s, ".").value;
  }

  lemma LastOfCons(x: string, xs: seq<string>)
    requires xs != []
    ensures Last([x] + xs) == Last(xs)
  {
  }

  // ---------------------------------------------------------------------
  // Best loss, "is better", patience and early stopping
  // ---------------------------------------------------------------------

  /** A float that may be `float('inf')`. */
  datatype Ext = Inf | Fin(value: real)

  /** `min(best, x)`. */
  function MinExt(a: Ext, x: real): Ext {
    if a.Fin? && a.value <= x then a else Fin(x)
  }

  /** `min(a, b)` where either may be infinite. */
  function MinExt2(a: Ext, b: Ext): Ext {
    if b.Inf? then a else MinExt(a, b.value)
  }

  /** The running minimum, starting from infinity. */
  function MinOf(xs: seq<real>): Ext {
    if xs == [] then Inf else MinExt(MinOf(xs[..|xs| - 1]), xs[|xs| - 1])
  }

  /** The running minimum is infinite only for no values, and otherwise one
      of the values and at most every value. */
  lemma {:induction false} MinOfIsMinimum(xs: seq<real>)
    ensures MinOf(xs).Inf? <==> xs == []
    ensures MinOf(xs).Fin? ==>
      && (exists k :: 0 <= k < |xs| && xs[k] == MinOf(xs).value)
      && (forall k :: 0 <= k < |xs| ==> MinOf(xs).value <= xs[k])
  {
    if xs != [] {
      var init := xs[..|xs| - 1];
      MinOfIsMinimum(init);
      if MinOf(init).Fin? && MinOf(init).value <= xs[|xs| - 1] {
        var k :| 0 <= k < |init| && init[k] == MinOf(init).value;
        assert xs[k] == MinOf(xs).value;
      } else {
        assert xs[|xs| - 1] == MinOf(xs).value;
      }
      forall k | 0 <= k < |xs| ensures MinOf(xs).value <= xs[k] {
        if k < |init| {
          assert xs[k] == init[k];
        }
      }
    }
  }

  /** `min(xs)` of a non-empty list. */
  function SeqMin(xs: seq<real>): real
    requires xs != []
  {
    if |xs| == 1 then xs[0]
    else
      var m := SeqMin(xs[..|xs| - 1]);
      if xs[|xs| - 1] < m then xs[|xs| - 1] else m
  }

  lemma {:induction false} SeqMinIsMinimum(xs: seq<real>)
    requires xs != []
    ensures forall k :: 0 <= k < |xs| ==> SeqMin(xs) <= xs[k]
    ensures exists k :: 0 <= k < |xs| && xs[k] == SeqMin(xs)
  {
    if |xs| == 1 {
      assert xs[0] == SeqMin(xs);
    } else {
      var init := xs[..|xs| - 1];
      SeqMinIsMinimum(init);
      var k :| 0 <= k < |init| && init[k] == SeqMin(init);
      assert xs[k] == init[k];
      if xs[|xs| - 1] < SeqMin(init) {
        assert xs[|xs| - 1] == SeqMin(xs);
      } else {
        assert xs[k] == SeqMin(xs);
      }
      forall j | 0 <= j < |xs| ensures SeqMin(xs) <= xs[j] {
        if j < |init| {
          assert xs[j] == init[j];
        }
      }
    }
  }

  /** `eval_losses == [] or dev_loss < min(eval_losses)`. */
  predicate IsBetter(prior: seq<real>, d: real) {
    prior == [] || d < SeqMin(prior)
  }

  /** An epoch is better exactly when its dev loss is strictly below every
      earlier one. */
  lemma IsBetterIff(prior: seq<real>, d: real)
    ensures IsBetter(prior, d) <==> forall k :: 0 <= k < |prior| ==> d < prior[k]
  {
    if prior != [] {
      SeqMinIsMinimum(prior);
    }
  }

  /** Up to this epoch index patience is always reset. */
  const GraceEpochs: nat := 50

  /** The patience counter after the epochs whose dev losses are `devs`. */
  function PatienceAfter(devs: seq<real>): nat {
    if devs == [] then 0
    else
      var e := |devs| - 1;
      if e <= GraceEpochs || IsBetter(devs[..e], devs[e]) then 0 else PatienceAfter(devs[..e]) + 1
  }

  /** Patience stays 0 through epoch index 50 and then grows by at most one
      per epoch. */
  lemma {:induction false} PatienceBound(devs: seq<real>)
    ensures PatienceAfter(devs) <= if |devs| <= GraceEpochs + 1 then 0 else |devs| - (GraceEpochs + 1)
  {
    if devs != [] {
      PatienceBound(devs[..|devs| - 1]);
    }
  }

  /** The dev losses of the first `n` epochs. */
  function DevLosses(dev: nat -> real, n: nat): (r: seq<real>)
    ensures |r| == n
  {
    seq(n, e requires 0 <= e => dev(e))
  }

  /** The loop breaks after epoch `e`: `0 < train_patience <= patience`. */
  predicate StopsAfter(dev: nat -> real, trainPatience: int, e: nat) {
    0 < trainPatience <= PatienceAfter(DevLosses(dev, e + 1))
  }

  function FirstStop(dev: nat -> real, trainPatience: int, e: nat, n: nat): (r: nat)
    requires e <= n
    ensures e <= r <= n
    decreases n - e
  {
    if e == n then n
    else if StopsAfter(dev, trainPatience, e) then e + 1
    else FirstStop(dev, trainPatience, e + 1, n)
  }

  /** How many epochs run to completion. */
  function EpochsRun(numEpochs: int, dev: Option<nat -> real>, trainPatience: int): nat {
    RunFrom(dev, trainPatience, 0, Max0(numEpochs))
  }

  function RunFrom(dev: Option<nat -> real>, trainPatience: int, e: nat, n: nat): nat
    requires e <= n
  {
    if dev.None? then n else FirstStop(dev.value, trainPatience, e, n)
  }

  lemma {:induction false} FirstStopSpec(dev: nat -> real, trainPatience: int, e: nat, n: nat)
    requires e <= n
    ensures var r := FirstStop(dev, trainPatience, e, n);
      && (forall k :: e <= k < r - 1 ==> !StopsAfter(dev, trainPatience, k))
      && (r < n ==> r > e && StopsAfter(dev, trainPatience, r - 1))
      && (r == n && n > e ==> forall k :: e <= k < n - 1 ==> !StopsAfter(dev, trainPatience, k))
    decreases n - e
  {
    if e < n && !StopsAfter(dev, trainPatience, e) {
      FirstStopSpec(dev, trainPatience, e + 1, n);
    }
  }

  lemma {:induction false} NoStopInGrace(dev: nat -> real, trainPatience: int, e: nat)
    requires e <= GraceEpochs
    ensures !StopsAfter(dev, trainPatience, e)
  {
    PatienceBound(DevLosses(dev, e + 1));
  }

  /** Early stopping: at most `num_train_epochs` epochs run; all of them
      without dev data or with a non-positive patience; otherwise the run
      ends right after the first epoch whose patience reaches the limit, and
      that is never before epoch index 51. */
  lemma EpochsRunSpec(numEpochs: int, dev: Option<nat -> real>, trainPatience: int)
    ensures EpochsRun(numEpochs, dev, trainPatience) <= Max0(numEpochs)
    ensures dev.None? || trainPatience <= 0 ==> EpochsRun(numEpochs, dev, trainPatience) == Max0(numEpochs)
    ensures EpochsRun(numEpochs, dev, trainPatience) >= if Max0(numEpochs) <= GraceEpochs + 2 then Max0(numEpochs) else GraceEpochs + 2
    ensures var r := EpochsRun(numEpochs, dev, trainPatience);
      r < Max0(numEpochs) ==> dev.Some? && r > 0 && StopsAfter(dev.value, trainPatience, r - 1)
    ensures dev.Some? ==> forall k :: 0 <= k < EpochsRun(numEpochs, dev, trainPatience) - 1 ==>
      !StopsAfter(dev.value, trainPatience, k)
  {
    var n := Max0(numEpochs);
    if dev.Some? {
      FirstStopSpec(dev.value, trainPatience, 0, n);
      forall k: nat | k <= GraceEpochs ensures !StopsAfter(dev.value, trainPatience, k) {
        NoStopInGrace(dev.value, trainPatience, k);
      }
    }
  }

  // ---------------------------------------------------------------------
  // Losses and history of one loader (`train_with_dataloader`)
  // ---------------------------------------------------------------------

  /** An entry of the SPL weight buffers: the `1` put in by
      `[1] * len(train_dataloader)`, or a weight computed by the
      regulariser. */
  datatype Weight<V> = One | Computed(v: V)

  datatype TrainError =
    | ZeroDivision(epoch: nat)                             // `running_loss / 0`
    | GeneratorRaised(reason: Curriculum.CurriculumError)  // raised by `get_curriculum`

  /** What one run returns or leaves behind: the five history lists, the
      best epoch loss, the epochs after which a checkpoint was saved, and
      the final SPL buffers `(prev_v_s, v_s)` when they were ever set. */
  datatype TrainResult<V> = TrainResult(
    bestEpochLoss: Ext,
    batchLosses: seq<real>,
    batchExSeen: seq<nat>,
    epochLosses: seq<real>,
    epochExSeen: seq<nat>,
    evalLosses: seq<real>,
    checkpoints: seq<nat>,
    splBuffers: Option<(seq<Weight<V>>, seq<V>)>)

  function Sum(xs: seq<nat>): nat {
    if xs == [] then 0 else Sum(xs[..|xs| - 1]) + xs[|xs| - 1]
  }

  /** The weight argument of the batch loss: SPL scales the per-sample
      losses by `prev_v_s[step]`, plain training takes the model's loss. */
  function WeightArg<V>(spl: Option<(nat, nat) -> V>): Option<Weight<V>> {
    if spl.Some? then Some(One) else None
  }

  /** `sum(loss * len(labels))` over the first `m` batches of epoch `e`. */
  function WeightedSum<V>(loss: (nat, nat, Option<Weight<V>>) -> real, e: nat, sizes: seq<nat>,
                          w: Option<Weight<V>>, m: nat): real
    requires m <= |sizes|
  {
    if m == 0 then 0.0 else WeightedSum(loss, e, sizes, w, m - 1) + loss(e, m - 1, w) * (sizes[m - 1] as real)
  }

  /** `running_loss / running_ex` at the end of epoch `e`. */
  function EpochLoss<V>(loss: (nat, nat, Option<Weight<V>>) -> real, e: nat, sizes: seq<nat>,
                        w: Option<Weight<V>>): real
    requires Sum(sizes) > 0
  {
    Mean(WeightedSum(loss, e, sizes, w, |sizes|), Sum(sizes))
  }

  function Mean(total: real, count: nat): real
    requires count > 0
  {
    total / (count as real)
  }

  function EpochLosses<V>(loss: (nat, nat, Option<Weight<V>>) -> real, sizes: seq<nat>,
                          w: Option<Weight<V>>, epochs: nat): (r: seq<real>)
    requires epochs == 0 || Sum(sizes) > 0
    ensures |r| == epochs
  {
    if epochs == 0 then [] else EpochLosses(loss, sizes, w, epochs - 1) + [EpochLoss(loss, epochs - 1, sizes, w)]
  }

  function BatchLosses<V>(loss: (nat, nat, Option<Weight<V>>) -> real, sizes: seq<nat>,
                          w: Option<Weight<V>>, epochs: nat): seq<real>
  {
    if epochs == 0 then []
    else BatchLosses(loss, sizes, w, epochs - 1) + seq(|sizes|, s requires 0 <= s => loss(epochs - 1, s, w))
  }

  function Repeat<T>(xs: seq<T>, times: nat): seq<T> {
    if times == 0 then [] else Repeat(xs, times - 1) + xs
  }

  /** The epochs after which `save_checkpoint` runs: every epoch without dev
      data; with dev data those in the grace period or better than all
      before. */
  function SavedEpochs(dev: Option<nat -> real>, epochs: nat): seq<nat> {
    if epochs == 0 then []
    else
      var e := epochs - 1;
      SavedEpochs(dev, e)
        + (if dev.None? || e <= GraceEpochs || IsBetter(DevLosses(dev.value, e), dev.value(e)) then [e] else [])
  }

  function SplBuffers<V>(spl: Option<(nat, nat) -> V>, n: nat, epochs: nat): Option<(seq<Weight<V>>, seq<V>)> {
    if spl.None? || epochs == 0 then None
    else Some((seq(n, k requires 0 <= k => Computed(spl.value(epochs - 1, k))),
               seq(n, k requires 0 <= k => spl.value(epochs - 1, k))))
  }

  /** The history and buffers after `epochs` completed epochs. */
  function Snapshot<V>(sizes: seq<nat>, loss: (nat, nat, Option<Weight<V>>) -> real,
                       dev: Option<nat -> real>, spl: Option<(nat, nat) -> V>, epochs: nat): TrainResult<V>
    requires epochs == 0 || Sum(sizes) > 0
  {
    var w := WeightArg(spl);
    var epochLosses := EpochLosses(loss, sizes, w, epochs);
    TrainResult(
      MinOf(epochLosses),
      BatchLosses(loss, sizes, w, epochs),
      Repeat(sizes, epochs),
      epochLosses,
      Repeat([Sum(sizes)], epochs),
      if dev.Some? then DevLosses(dev.value, epochs) else [],
      SavedEpochs(dev, epochs),
      SplBuffers(spl, |sizes|, epochs))
  }

  /** Everything `train_with_dataloader` computes for a loader whose batches
      have the given sizes (the same every epoch). */
  function Run<V>(numEpochs: int, sizes: seq<nat>, loss: (nat, nat, Option<Weight<V>>) -> real,
                  dev: Option<nat -> real>, trainPatience: int, spl: Option<(nat, nat) -> V>)
    : Result<TrainResult<V>, TrainError>
  {
    if Max0(numEpochs) > 0 && Sum(sizes) == 0 then Failure(ZeroDivision(0))
    else
      EpochsRunSpec(numEpochs, dev, trainPatience);
      Success(Snapshot(sizes, loss, dev, spl, EpochsRun(numEpochs, dev, trainPatience)))
  }

  /** One pass over the loader in epoch `e`: with SPL every weight buffer
      entry starts at 1 and one regulariser weight is recorded per batch.
      Returns the running loss and example count and the grown history. */
  method RunEpoch<V>(e: nat, sizes: seq<nat>, loss: (nat, nat, Option<Weight<V>>) -> real,
                     spl: Option<(nat, nat) -> V>, batchLosses0: seq<real>, batchExSeen0: seq<nat>)
    returns (runningLoss: real, runningEx: nat, batchLosses: seq<real>, batchExSeen: seq<nat>, vs: seq<V>)
    ensures runningLoss == WeightedSum(loss, e, sizes, WeightArg(spl), |sizes|)
    ensures runningEx == Sum(sizes)
    ensures batchLosses == batchLosses0 + seq(|sizes|, s requires 0 <= s => loss(e, s, WeightArg(spl)))
    ensures batchExSeen == batchExSeen0 + sizes
    ensures spl.Some? ==> vs == seq(|sizes|, k requires 0 <= k => spl.value(e, k))
  {
    ghost var w := WeightArg(spl);
    var prevVs: seq<Weight<V>> := seq(|sizes|, k requires 0 <= k => One);
    runningLoss, runningEx := 0.0, 0;
    batchLosses, batchExSeen, vs := batchLosses0, batchExSeen0, [];
    var step := 0;
    while step < |sizes|
      invariant 0 <= step <= |sizes|
      invariant spl.Some? ==> vs == seq(step, k requires 0 <= k => spl.value(e, k))
      invariant runningLoss == WeightedSum(loss, e, sizes, w, step)
      invariant runningEx == Sum(sizes[..step])
      invariant batchLosses == batchLosses0 + seq(step, s requires 0 <= s => loss(e, s, w))
      invariant batchExSeen == batchExSeen0 + sizes[..step]
    {
      var batchLoss;
      if spl.Some? {
        batchLoss := loss(e, step, Some(prevVs[step]));
        vs := vs + [spl.value(e, step)];
      } else {
        batchLoss := loss(e, step, None);
      }
      assert sizes[..step + 1][..step] == sizes[..step];
      assert sizes[..step + 1] == sizes[..step] + [sizes[step]];
      runningLoss := runningLoss + batchLoss * (sizes[step] as real);
      runningEx := runningEx + sizes[step];
      batchLosses := batchLosses + [batchLoss];
      batchExSeen := batchExSeen + [sizes[step]];
      step := step + 1;
    }
    assert sizes[..|sizes|] == sizes;
  }

  /** How one more epoch extends the history. */
  lemma SnapshotStep<V>(sizes: seq<nat>, loss: (nat, nat, Option<Weight<V>>) -> real,
                        dev: Option<nat -> real>, spl: Option<(nat, nat) -> V>, e: nat,
                        s: TrainResult<V>, next: TrainResult<V>)
    requires Sum(sizes) > 0
    requires s == Snapshot(sizes, loss, dev, spl, e) && next == Snapshot(sizes, loss, dev, spl, e + 1)
    ensures var epochLoss := EpochLoss(loss, e, sizes, WeightArg(spl));
      && next.bestEpochLoss == MinExt(s.bestEpochLoss, epochLoss)
      && next.epochLosses == s.epochLosses + [epochLoss]
      && next.epochExSeen == s.epochExSeen + [Sum(sizes)]
    ensures next.batchLosses == s.batchLosses + seq(|sizes|, k requires 0 <= k => loss(e, k, WeightArg(spl)))
    ensures next.batchExSeen == s.batchExSeen + sizes
    ensures next.evalLosses == (if dev.Some? then s.evalLosses + [dev.value(e)] else [])
    ensures next.checkpoints
      == s.checkpoints + (if dev.None? || e <= GraceEpochs || IsBetter(s.evalLosses, dev.value(e)) then [e] else [])
    ensures next.splBuffers
      == if spl.Some? then Some((seq(|sizes|, k requires 0 <= k => Computed(spl.value(e, k))),
                                 seq(|sizes|, k requires 0 <= k => spl.value(e, k))))
         else None
  {
    EpochLossesStep(loss, sizes, WeightArg(spl), e);
    DevStep(dev, e);
  }

  lemma DevStep(dev: Option<nat -> real>, e: nat)
    ensures (if dev.Some? then DevLosses(dev.value, e + 1) else [])
      == if dev.Some? then DevLosses(dev.value, e) + [dev.value(e)] else []
    ensures SavedEpochs(dev, e + 1)
      == SavedEpochs(dev, e)
         + (if dev.None? || e <= GraceEpochs || IsBetter(DevLosses(dev.value, e), dev.value(e)) then [e] else [])
  {
    if dev.Some? {
      assert DevLosses(dev.value, e + 1) == DevLosses(dev.value, e) + [dev.value(e)];
    }
  }

  /** The patience counter after one more epoch. */
  lemma PatienceStep(dev: nat -> real, e: nat)
    ensures PatienceAfter(DevLosses(dev, e + 1))
      == if e <= GraceEpochs || IsBetter(DevLosses(dev, e), dev(e)) then 0 else PatienceAfter(DevLosses(dev, e)) + 1
  {
    assert DevLosses(dev, e + 1)[..e] == DevLosses(dev, e);
  }

  lemma EpochLossesStep<V>(loss: (nat, nat, Option<Weight<V>>) -> real, sizes: seq<nat>,
                           w: Option<Weight<V>>, e: nat)
    requires Sum(sizes) > 0
    ensures EpochLosses(loss, sizes, w, e + 1) == EpochLosses(loss, sizes, w, e) + [EpochLoss(loss, e, sizes, w)]
    ensures MinOf(EpochLosses(loss, sizes, w, e + 1))
      == MinExt(MinOf(EpochLosses(loss, sizes, w, e)), EpochLoss(loss, e, sizes, w))
  {
    var next := EpochLosses(loss, sizes, w, e + 1);
    assert next == EpochLosses(loss, sizes, w, e) + [EpochLoss(loss, e, sizes, w)];
    assert next[..|next| - 1] == EpochLosses(loss, sizes, w, e);
  }

  /** Whether the run carries on after epoch `e`. */
  lemma RunFromStep(dev: Option<nat -> real>, trainPatience: int, e: nat, n: nat)
    requires e < n && dev.Some?
    ensures RunFrom(dev, trainPatience, e, n)
      == if StopsAfter(dev.value, trainPatience, e) then e + 1 else RunFrom(dev, trainPatience, e + 1, n)
  {
  }

  /** The loop condition after epoch `e`, given whether it stopped there. */
  lemma ContinueAfter(numEpochs: int, dev: Option<nat -> real>, trainPatience: int, e: nat, stop: bool)
    requires e < Max0(numEpochs)
    requires EpochsRun(numEpochs, dev, trainPatience) == RunFrom(dev, trainPatience, e, Max0(numEpochs))
    requires stop <==> dev.Some? && StopsAfter(dev.value, trainPatience, e)
    ensures EpochsRun(numEpochs, dev, trainPatience)
      == if stop then e + 1 else RunFrom(dev, trainPatience, e + 1, Max0(numEpochs))
  {
    if dev.Some? {
      RunFromStep(dev, trainPatience, e, Max0(numEpochs));
    }
  }

  /** The dev-set step at the end of epoch `e`: record the dev loss, reset
      patience and save a checkpoint in the grace period or on an
      improvement, otherwise count one more epoch without improvement; and
      tell whether patience has run out. */
  method TrackDev(dev: nat -> real, e: nat, trainPatience: int, evalLosses: seq<real>,
                  checkpoints: seq<nat>, patience: nat)
    returns (evalLosses': seq<real>, checkpoints': seq<nat>, patience': nat, stop: bool)
    requires evalLosses == DevLosses(dev, e) && patience == PatienceAfter(evalLosses)
    ensures evalLosses' == DevLosses(dev, e + 1) && patience' == PatienceAfter(evalLosses')
    ensures checkpoints' == checkpoints + (if e <= GraceEpochs || IsBetter(evalLosses, dev(e)) then [e] else [])
    ensures stop <==> StopsAfter(dev, trainPatience, e)
  {
    var devLoss := dev(e);
    var isBetter := evalLosses == [] || devLoss < SeqMin(evalLosses);
    PatienceStep(dev, e);
    evalLosses' := evalLosses + [devLoss];
    assert evalLosses' == DevLosses(dev, e + 1);
    checkpoints' := checkpoints;
    if e <= GraceEpochs || isBetter {
      patience' := 0;
      checkpoints' := checkpoints' + [e];
    } else {
      patience' := patience + 1;
    }
    stop := 0 < trainPatience <= patience';
  }

  /** `train_with_dataloader`. The lists it builds are kept together as
      one history value. */
  method TrainWithDataloader<V>(numEpochs: int, sizes: seq<nat>, loss: (nat, nat, Option<Weight<V>>) -> real,
                                dev: Option<nat -> real>, trainPatience: int, spl: Option<(nat, nat) -> V>)
    returns (r: Result<TrainResult<V>, TrainError>)
    ensures r == Run(numEpochs, sizes, loss, dev, trainPatience, spl)
  {
    var failed, hist, e := EpochLoop(numEpochs, sizes, loss, dev, trainPatience, spl);
    if failed {
      RunFails(numEpochs, sizes, loss, dev, trainPatience, spl);
      return Failure(ZeroDivision(e));
    }
    RunSucceeds(numEpochs, sizes, loss, dev, trainPatience, spl, e);
    return Success(hist);
  }

  /** The epoch loop of `train_with_dataloader`: it stops after the last
      epoch or once patience runs out, and fails in the first epoch when
      the loader has no examples. */
  method EpochLoop<V>(numEpochs: int, sizes: seq<nat>, loss: (nat, nat, Option<Weight<V>>) -> real,
                      dev: Option<nat -> real>, trainPatience: int, spl: Option<(nat, nat) -> V>)
    returns (failed: bool, hist: TrainResult<V>, e: nat)
    ensures failed ==> e == 0 && Max0(numEpochs) > 0 && Sum(sizes) == 0
    ensures !failed ==> Max0(numEpochs) == 0 || Sum(sizes) > 0
    ensures !failed ==> EpochsRun(numEpochs, dev, trainPatience) == e && hist == Snapshot(sizes, loss, dev, spl, e)
  {
    var patience: nat := 0;
    hist := TrainResult(Inf, [], [], [], [], [], [], None);
    SnapshotZero(sizes, loss, dev, spl);
    var n := Max0(numEpochs);
    e := 0;
    var stopped := false;
    while e < n && !stopped
      invariant 0 <= e <= n
      invariant e > 0 ==> Sum(sizes) > 0
      invariant stopped ==> e > 0 && dev.Some?
      invariant EpochsRun(numEpochs, dev, trainPatience) == if stopped then e else RunFrom(dev, trainPatience, e, n)
      invariant hist == Snapshot(sizes, loss, dev, spl, e)
      invariant dev.Some? ==> patience == PatienceAfter(hist.evalLosses)
    {
      var failedNow, next, patience', stop := TrainEpoch(e, sizes, loss, dev, trainPatience, spl, hist, patience);
      if failedNow {
        return true, hist, e;
      }
      ContinueAfter(numEpochs, dev, trainPatience, e, stop);
      hist, patience, stopped := next, patience', stop;
      e := e + 1;
    }
    return false, hist, e;
  }

  lemma SnapshotZero<V>(sizes: seq<nat>, loss: (nat, nat, Option<Weight<V>>) -> real,
                        dev: Option<nat -> real>, spl: Option<(nat, nat) -> V>)
    ensures Snapshot(sizes, loss, dev, spl, 0) == TrainResult(Inf, [], [], [], [], [], [], None)
  {
  }

  lemma RunFails<V>(numEpochs: int, sizes: seq<nat>, loss: (nat, nat, Option<Weight<V>>) -> real,
                    dev: Option<nat -> real>, trainPatience: int, spl: Option<(nat, nat) -> V>)
    requires Max0(numEpochs) > 0 && Sum(sizes) == 0
    ensures Run(numEpochs, sizes, loss, dev, trainPatience, spl) == Failure(ZeroDivision(0))
  {
  }

  lemma RunSucceeds<V>(numEpochs: int, sizes: seq<nat>, loss: (nat, nat, Option<Weight<V>>) -> real,
                       dev: Option<nat -> real>, trainPatience: int, spl: Option<(nat, nat) -> V>, e: nat)
    requires Max0(numEpochs) == 0 || Sum(sizes) > 0
    requires EpochsRun(numEpochs, dev, trainPatience) == e
    ensures Run(numEpochs, sizes, loss, dev, trainPatience, spl) == Success(Snapshot(sizes, loss, dev, spl, e))
  {
  }

  /** One iteration of the epoch loop: the batches, the epoch loss (which
      divides by the number of examples seen, so an empty loader fails),
      and the dev-set step. */
  method TrainEpoch<V>(e: nat, sizes: seq<nat>, loss: (nat, nat, Option<Weight<V>>) -> real,
                       dev: Option<nat -> real>, trainPatience: int, spl: Option<(nat, nat) -> V>,
                       hist: TrainResult<V>, patience: nat)
    returns (failed: bool, next: TrainResult<V>, patience': nat, stop: bool)
    requires (e == 0 || Sum(sizes) > 0) && hist == Snapshot(sizes, loss, dev, spl, e)
    requires dev.Some? ==> patience == PatienceAfter(hist.evalLosses)
    ensures failed <==> Sum(sizes) == 0
    ensures !failed ==> next == Snapshot(sizes, loss, dev, spl, e + 1)
    ensures !failed && dev.Some? ==> patience' == PatienceAfter(next.evalLosses)
    ensures !failed ==> (stop <==> dev.Some? && StopsAfter(dev.value, trainPatience, e))
  {
    var runningLoss, runningEx, batchLosses, batchExSeen, vs := RunEpoch(e, sizes, loss, spl, hist.batchLosses, hist.batchExSeen);
    var buffers: Option<(seq<Weight<V>>, seq<V>)> := None;
    if spl.Some? {
      var prevVs := seq(|vs|, k requires 0 <= k < |vs| => Computed(vs[k]));
      assert prevVs == seq(|sizes|, k requires 0 <= k => Computed(spl.value(e, k)));
      buffers := Some((prevVs, vs));
    }
    if runningEx == 0 {
      return true, hist, patience, false;
    }
    SnapshotStep(sizes, loss, dev, spl, e, hist, Snapshot(sizes, loss, dev, spl, e + 1));
    var epochLoss := Mean(runningLoss, runningEx);
    var evalLosses, checkpoints := hist.evalLosses, hist.checkpoints;
    patience', stop := patience, false;
    if dev.Some? {
      evalLosses, checkpoints, patience', stop := TrackDev(dev.value, e, trainPatience, evalLosses, checkpoints, patience);
    } else {
      checkpoints := checkpoints + [e];
    }
    failed := false;
    next := TrainResult(MinExt(hist.bestEpochLoss, epochLoss), batchLosses, batchExSeen,
                        hist.epochLosses + [epochLoss], hist.epochExSeen + [runningEx],
                        evalLosses, checkpoints, buffers);
  }

  // ---------------------------------------------------------------------
  // Properties of one run
  // ---------------------------------------------------------------------

  lemma {:induction false} BatchLossesLength<V>(loss: (nat, nat, Option<Weight<V>>) -> real, sizes: seq<nat>,
                                                w: Option<Weight<V>>, epochs: nat)
    ensures |BatchLosses(loss, sizes, w, epochs)| == epochs * |sizes|
  {
    if epochs > 0 {
      BatchLossesLength(loss, sizes, w, epochs - 1);
      assert (epochs - 1) * |sizes| + |sizes| == epochs * |sizes|;
    }
  }

  lemma {:induction false} RepeatLength<T>(xs: seq<T>, times: nat)
    ensures |Repeat(xs, times)| == times * |xs|
  {
    if times > 0 {
      RepeatLength(xs, times - 1);
      assert (times - 1) * |xs| + |xs| == times * |xs|;
    }
  }

  /** Epoch `e`'s block of a repeated list is the list itself. */
  lemma {:induction false} RepeatBlock<T>(xs: seq<T>, times: nat, e: nat)
    requires e < times
    ensures |Repeat(xs, times)| == times * |xs|
    ensures e * |xs| + |xs| <= times * |xs|
    ensures Repeat(xs, times)[e * |xs|..e * |xs| + |xs|] == xs
  {
    RepeatLength(xs, times);
    var prev := Repeat(xs, times - 1);
    RepeatLength(xs, times - 1);
    Curriculum.MulLe(e + 1, times, |xs|);
    if e < times - 1 {
      RepeatBlock(xs, times - 1, e);
      Curriculum.MulLe(e + 1, times - 1, |xs|);
      assert Repeat(xs, times)[..|prev|] == prev;
    } else {
      assert e * |xs| == |prev|;
    }
  }

  /** The lengths of one run's history: one batch entry per batch of every
      completed epoch, one epoch entry per completed epoch, one dev entry per
      epoch when there is dev data. */
  lemma RunLengths<V>(numEpochs: int, sizes: seq<nat>, loss: (nat, nat, Option<Weight<V>>) -> real,
                      dev: Option<nat -> real>, trainPatience: int, spl: Option<(nat, nat) -> V>)
    requires Run(numEpochs, sizes, loss, dev, trainPatience, spl).Success?
    ensures var t := Run(numEpochs, sizes, loss, dev, trainPatience, spl).value;
      var epochs := EpochsRun(numEpochs, dev, trainPatience);
      && |t.epochLosses| == |t.epochExSeen| == epochs
      && |t.batchLosses| == |t.batchExSeen| == epochs * |sizes|
      && |t.evalLosses| == (if dev.Some? then epochs else 0)
  {
    var epochs := EpochsRun(numEpochs, dev, trainPatience);
    BatchLossesLength(loss, sizes, WeightArg(spl), epochs);
    RepeatLength(sizes, epochs);
    RepeatLength([Sum(sizes)], epochs);
  }

  lemma {:induction false} RepeatSingle<T>(x: T, times: nat, e: nat)
    requires e < times
    ensures |Repeat([x], times)| == times && Repeat([x], times)[e] == x
  {
    if e < times - 1 {
      RepeatSingle(x, times - 1, e);
    } else {
      RepeatLength([x], times - 1);
    }
  }

  /** Every entry of `epoch_ex_seen` is the number of examples the loader
      holds. */
  lemma RunExamplesSeen<V>(numEpochs: int, sizes: seq<nat>, loss: (nat, nat, Option<Weight<V>>) -> real,
                           dev: Option<nat -> real>, trainPatience: int, spl: Option<(nat, nat) -> V>, e: nat)
    requires Run(numEpochs, sizes, loss, dev, trainPatience, spl).Success?
    requires e < EpochsRun(numEpochs, dev, trainPatience)
    ensures var t := Run(numEpochs, sizes, loss, dev, trainPatience, spl).value;
      e < |t.epochExSeen| && t.epochExSeen[e] == Sum(sizes)
  {
    RepeatSingle(Sum(sizes), EpochsRun(numEpochs, dev, trainPatience), e);
  }

  /** The best epoch loss is infinite only when no epoch ran, and otherwise
      the smallest of the epoch losses. */
  lemma RunBest<V>(numEpochs: int, sizes: seq<nat>, loss: (nat, nat, Option<Weight<V>>) -> real,
                   dev: Option<nat -> real>, trainPatience: int, spl: Option<(nat, nat) -> V>)
    requires Run(numEpochs, sizes, loss, dev, trainPatience, spl).Success?
    ensures var t := Run(numEpochs, sizes, loss, dev, trainPatience, spl).value;
      && (t.bestEpochLoss.Inf? <==> EpochsRun(numEpochs, dev, trainPatience) == 0)
      && (t.bestEpochLoss.Fin? ==>
            && (exists e :: 0 <= e < |t.epochLosses| && t.epochLosses[e] == t.bestEpochLoss.value)
            && forall e :: 0 <= e < |t.epochLosses| ==> t.bestEpochLoss.value <= t.epochLosses[e])
  {
    MinOfIsMinimum(Run(numEpochs, sizes, loss, dev, trainPatience, spl).value.epochLosses);
  }

  /** With SPL the final buffers hold, for every batch of the last epoch,
      the weight the regulariser computed; without SPL they are never set. */
  lemma RunSplBuffers<V>(numEpochs: int, sizes: seq<nat>, loss: (nat, nat, Option<Weight<V>>) -> real,
                         dev: Option<nat -> real>, trainPatience: int, spl: Option<(nat, nat) -> V>)
    requires Run(numEpochs, sizes, loss, dev, trainPatience, spl).Success?
    ensures var t := Run(numEpochs, sizes, loss, dev, trainPatience, spl).value;
      var epochs := EpochsRun(numEpochs, dev, trainPatience);
      && (spl.None? || epochs == 0 <==> t.splBuffers.None?)
      && (t.splBuffers.Some? ==>
            var (prevVs, vs) := t.splBuffers.value;
            && |prevVs| == |vs| == |sizes|
            && forall k :: 0 <= k < |sizes| ==>
                 vs[k] == spl.value(epochs - 1, k) && prevVs[k] == Computed(vs[k]))
  {
  }

  /** A loader whose batches are all empty cannot finish an epoch: the
      epoch loss divides by zero. */
  lemma EmptyLoaderFails<V>(numEpochs: int, loss: (nat, nat, Option<Weight<V>>) -> real,
                            dev: Option<nat -> real>, trainPatience: int, spl: Option<(nat, nat) -> V>)
    requires numEpochs > 0
    ensures Run(numEpochs, [], loss, dev, trainPatience, spl) == Failure(ZeroDivision(0))
  {
  }

  lemma MulMono(a: real, b: real, c: real)
    requires a <= b && c >= 0.0
    ensures a * c <= b * c
  {
  }

  lemma Distribute(a: real, b: real, c: real)
    ensures a * (b + c) == a * b + a * c
  {
  }

  lemma PrefixSumStep(sizes: seq<nat>, m: nat)
    requires 0 < m <= |sizes|
    ensures Sum(sizes[..m]) == Sum(sizes[..m - 1]) + sizes[m - 1]
  {
    assert sizes[..m][..m - 1] == sizes[..m - 1];
  }

  lemma WeightedSumAtMost<V>(loss: (nat, nat, Option<Weight<V>>) -> real, e: nat,
                             sizes: seq<nat>, w: Option<Weight<V>>, m: nat, hi: real)
    requires m <= |sizes|
    requires forall s :: 0 <= s < |sizes| ==> loss(e, s, w) <= hi
    ensures WeightedSum(loss, e, sizes, w, m) <= hi * (Sum(sizes[..m]) as real)
  {
    WeightedBelow(loss, e, sizes, w, m, hi);
    BoundSumIs(hi, sizes, m);
  }

  lemma WeightedSumAtLeast<V>(loss: (nat, nat, Option<Weight<V>>) -> real, e: nat,
                              sizes: seq<nat>, w: Option<Weight<V>>, m: nat, lo: real)
    requires m <= |sizes|
    requires forall s :: 0 <= s < |sizes| ==> lo <= loss(e, s, w)
    ensures lo * (Sum(sizes[..m]) as real) <= WeightedSum(loss, e, sizes, w, m)
  {
    WeightedAbove(loss, e, sizes, w, m, lo);
    BoundSumIs(lo, sizes, m);
  }

  /** The running loss of the first `m` batches if every batch loss were `b`. */
  function BoundSum(b: real, sizes: seq<nat>, m: nat): real
    requires m <= |sizes|
  {
    if m == 0 then 0.0 else BoundSum(b, sizes, m - 1) + b * (sizes[m - 1] as real)
  }

  lemma {:induction false} BoundSumIs(b: real, sizes: seq<nat>, m: nat)
    requires m <= |sizes|
    ensures BoundSum(b, sizes, m) == b * (Sum(sizes[..m]) as real)
  {
    if m == 0 {
      assert sizes[..0] == [];
    } else {
      BoundSumIs(b, sizes, m - 1);
      PrefixSumStep(sizes, m);
      Distribute(b, Sum(sizes[..m - 1]) as real, sizes[m - 1] as real);
    }
  }

  lemma {:induction false} WeightedBelow<V>(loss: (nat, nat, Option<Weight<V>>) -> real, e: nat,
                                            sizes: seq<nat>, w: Option<Weight<V>>, m: nat, hi: real)
    requires m <= |sizes|
    requires forall s :: 0 <= s < |sizes| ==> loss(e, s, w) <= hi
    ensures WeightedSum(loss, e, sizes, w, m) <= BoundSum(hi, sizes, m)
  {
    if m > 0 {
      WeightedBelow(loss, e, sizes, w, m - 1, hi);
      MulMono(loss(e, m - 1, w), hi, sizes[m - 1] as real);
    }
  }

  lemma {:induction false} WeightedAbove<V>(loss: (nat, nat, Option<Weight<V>>) -> real, e: nat,
                                            sizes: seq<nat>, w: Option<Weight<V>>, m: nat, lo: real)
    requires m <= |sizes|
    requires forall s :: 0 <= s < |sizes| ==> lo <= loss(e, s, w)
    ensures BoundSum(lo, sizes, m) <= WeightedSum(loss, e, sizes, w, m)
  {
    if m > 0 {
      WeightedAbove(loss, e, sizes, w, m - 1, lo);
      MulMono(lo, loss(e, m - 1, w), sizes[m - 1] as real);
    }
  }

  lemma DivAtLeast(lo: real, x: real, t: real)
    requires t > 0.0 && lo * t <= x
    ensures lo <= x / t
  {
    var q := x / t;
    assert q * t == x;
  }

  lemma DivAtMost(x: real, hi: real, t: real)
    requires t > 0.0 && x <= hi * t
    ensures x / t <= hi
  {
    var q := x / t;
    assert q * t == x;
  }

  /** The epoch loss is the size-weighted mean of the epoch's batch losses:
      it lies between the smallest and the largest of them. */
  lemma EpochLossIsWeightedMean<V>(loss: (nat, nat, Option<Weight<V>>) -> real, e: nat, sizes: seq<nat>,
                                   w: Option<Weight<V>>, lo: real, hi: real)
    requires Sum(sizes) > 0
    requires forall s :: 0 <= s < |sizes| ==> lo <= loss(e, s, w) <= hi
    ensures lo <= EpochLoss(loss, e, sizes, w) <= hi
  {
    EpochLossAtLeast(loss, e, sizes, w, lo);
    EpochLossAtMost(loss, e, sizes, w, hi);
  }

  lemma EpochLossAtLeast<V>(loss: (nat, nat, Option<Weight<V>>) -> real, e: nat, sizes: seq<nat>,
                            w: Option<Weight<V>>, lo: real)
    requires Sum(sizes) > 0
    requires forall s :: 0 <= s < |sizes| ==> lo <= loss(e, s, w)
    ensures lo <= EpochLoss(loss, e, sizes, w)
  {
    WeightedSumAtLeast(loss, e, sizes, w, |sizes|, lo);
    assert sizes[..|sizes|] == sizes;
    DivAtLeast(lo, WeightedSum(loss, e, sizes, w, |sizes|), Sum(sizes) as real);
  }

  lemma EpochLossAtMost<V>(loss: (nat, nat, Option<Weight<V>>) -> real, e: nat, sizes: seq<nat>,
                           w: Option<Weight<V>>, hi: real)
    requires Sum(sizes) > 0
    requires forall s :: 0 <= s < |sizes| ==> loss(e, s, w) <= hi
    ensures EpochLoss(loss, e, sizes, w) <= hi
  {
    WeightedSumAtMost(loss, e, sizes, w, |sizes|, hi);
    assert sizes[..|sizes|] == sizes;
    DivAtMost(WeightedSum(loss, e, sizes, w, |sizes|), hi, Sum(sizes) as real);
  }

  /** Without dev data every epoch saves a checkpoint; with dev data every
      epoch of the grace period does. */
  lemma {:induction false} SavedEpochsSpec(dev: Option<nat -> real>, epochs: nat)
    ensures dev.None? ==> SavedEpochs(dev, epochs) == seq(epochs, e requires 0 <= e => e)
    ensures epochs <= GraceEpochs + 1 ==> SavedEpochs(dev, epochs) == seq(epochs, e requires 0 <= e => e)
  {
    if epochs > 0 {
      SavedEpochsSpec(dev, epochs - 1);
    }
  }

  // ---------------------------------------------------------------------
  // One bucket and the bucket curriculum
  // ---------------------------------------------------------------------

  /** The JSON history of single-bucket training: five flat lists. */
  datatype FlatHistory = FlatHistory(
    batchLosses: seq<real>, batchExSeen: seq<nat>,
    epochLosses: seq<real>, epochExSeen: seq<nat>, evalLosses: seq<real>)

  /** The JSON history of bucket training: one inner list per curriculum. */
  datatype NestedHistory = NestedHistory(
    batchLosses: seq<seq<real>>, batchExSeen: seq<seq<nat>>,
    epochLosses: seq<seq<real>>, epochExSeen: seq<seq<nat>>, evalLosses: seq<seq<real>>)

  function Flat<V>(t: TrainResult<V>): FlatHistory {
    FlatHistory(t.batchLosses, t.batchExSeen, t.epochLosses, t.epochExSeen, t.evalLosses)
  }

  /** `train_with_one_bucket`: one run over the whole training loader; the
      result is the history written out. */
  method TrainWithOneBucket<V>(numEpochs: int, sizes: seq<nat>, loss: (nat, nat, Option<Weight<V>>) -> real,
                               dev: Option<nat -> real>, trainPatience: int, spl: Option<(nat, nat) -> V>)
    returns (r: Result<FlatHistory, TrainError>)
    ensures var run := Run(numEpochs, sizes, loss, dev, trainPatience, spl);
      && (run.Failure? ==> r == Failure(run.error))
      && (run.Success? ==> r == Success(Flat(run.value)))
  {
    var t := TrainWithDataloader(numEpochs, sizes, loss, dev, trainPatience, spl);
    if t.Failure? {
      return Failure(t.error);
    }
    return Success(Flat(t.value));
  }

  /** `DataLoader(..., batch_size=bs, drop_last=False)` over `n` examples:
      full batches and then the remainder. */
  function BatchSizes(n: nat, batchSize: nat): seq<nat>
    requires batchSize > 0
    decreases n
  {
    if n == 0 then []
    else if n <= batchSize then [n]
    else [batchSize] + BatchSizes(n - batchSize, batchSize)
  }

  lemma {:induction false} SumCons(x: nat, xs: seq<nat>)
    ensures Sum([x] + xs) == x + Sum(xs)
    decreases |xs|
  {
    if xs != [] {
      var s := [x] + xs;
      assert s[..|s| - 1] == [x] + xs[..|xs| - 1];
      SumCons(x, xs[..|xs| - 1]);
    } else {
      assert [x] + xs == [x];
    }
  }

  /** Every example is in exactly one batch, no batch is empty and none is
      larger than the batch size; only the last batch may be short. */
  lemma {:induction false} BatchSizesSpec(n: nat, batchSize: nat)
    requires batchSize > 0
    ensures Sum(BatchSizes(n, batchSize)) == n
    ensures forall k :: 0 <= k < |BatchSizes(n, batchSize)| ==> 0 < BatchSizes(n, batchSize)[k] <= batchSize
    ensures forall k :: 0 <= k < |BatchSizes(n, batchSize)| - 1 ==> BatchSizes(n, batchSize)[k] == batchSize
    ensures BatchSizes(n, batchSize) == [] <==> n == 0
    decreases n
  {
    if n > batchSize {
      var rest := BatchSizes(n - batchSize, batchSize);
      BatchSizesSpec(n - batchSize, batchSize);
      SumCons(batchSize, rest);
      assert forall k :: 1 <= k < |rest| + 1 ==> ([batchSize] + rest)[k] == rest[k - 1];
    } else if n > 0 {
      assert Sum([n]) == Sum([]) + n;
    }
  }

  /** The batches of a yielded curriculum's loader. */
  function LoaderSizes(phase: Curriculum.Phase): seq<nat>
    requires phase.loader.batchSize > 0
  {
    BatchSizes(|phase.loader.data.intents|, phase.loader.batchSize)
  }

  /** The dev losses seen while training curriculum `c`. */
  function DevOf(dev: Option<(nat, nat) -> real>, c: nat): Option<nat -> real> {
    if dev.None? then None else Some((e: nat) => dev.value(c, e))
  }

  predicate PositiveBatches(phases: seq<Curriculum.Phase>) {
    forall c :: 0 <= c < |phases| ==> phases[c].loader.batchSize > 0
  }

  /** The run over curriculum `c` (no SPL in bucket mode). */
  function CurriculumRun(phases: seq<Curriculum.Phase>, c: nat, numEpochs: int,
                         loss: nat -> (nat, nat, Option<Weight<()>>) -> real,
                         dev: Option<(nat, nat) -> real>, trainPatience: int): Result<TrainResult<()>, TrainError>
    requires c < |phases| && phases[c].loader.batchSize > 0
  {
    Run(numEpochs, LoaderSizes(phases[c]), loss(c), DevOf(dev, c), trainPatience, None)
  }

  /** Every curriculum trains without error. */
  predicate AllSucceed(phases: seq<Curriculum.Phase>, numEpochs: int,
                       loss: nat -> (nat, nat, Option<Weight<()>>) -> real,
                       dev: Option<(nat, nat) -> real>, trainPatience: int)
    requires PositiveBatches(phases)
  {
    forall c :: 0 <= c < |phases| ==> CurriculumRun(phases, c, numEpochs, loss, dev, trainPatience).Success?
  }

  /** The runs of all curricula, in order. */
  function AllRuns(phases: seq<Curriculum.Phase>, numEpochs: int,
                   loss: nat -> (nat, nat, Option<Weight<()>>) -> real,
                   dev: Option<(nat, nat) -> real>, trainPatience: int): (r: seq<TrainResult<()>>)
    requires PositiveBatches(phases) && AllSucceed(phases, numEpochs, loss, dev, trainPatience)
    ensures |r| == |phases|
  {
    seq(|phases|, c requires 0 <= c < |phases| => CurriculumRun(phases, c, numEpochs, loss, dev, trainPatience).value)
  }

  /** The nested history of a sequence of runs: one inner list per run. */
  function Nest<V>(runs: seq<TrainResult<V>>): NestedHistory {
    if runs == [] then NestedHistory([], [], [], [], [])
    else
      var h := Nest(runs[..|runs| - 1]);
      var t := runs[|runs| - 1];
      NestedHistory(h.batchLosses + [t.batchLosses], h.batchExSeen + [t.batchExSeen],
                    h.epochLosses + [t.epochLosses], h.epochExSeen + [t.epochExSeen],
                    h.evalLosses + [t.evalLosses])
  }

  /** The running `min(best_epoch_loss, curr_best_epoch_loss)` over runs. */
  function BestOf<V>(runs: seq<TrainResult<V>>): Ext {
    if runs == [] then Inf else MinExt2(BestOf(runs[..|runs| - 1]), runs[|runs| - 1].bestEpochLoss)
  }

  /** Entry `c` of every nested list is run `c`'s flat list. */
  lemma {:induction false} NestShape<V>(runs: seq<TrainResult<V>>)
    ensures var h := Nest(runs);
      && |h.batchLosses| == |h.batchExSeen| == |h.epochLosses| == |h.epochExSeen| == |h.evalLosses| == |runs|
      && forall c :: 0 <= c < |runs| ==>
           Flat(runs[c]) == FlatHistory(h.batchLosses[c], h.batchExSeen[c], h.epochLosses[c],
                                        h.epochExSeen[c], h.evalLosses[c])
  {
    if runs != [] {
      var init := runs[..|runs| - 1];
      NestShape(init);
      forall c | 0 <= c < |runs|
        ensures Flat(runs[c]) == FlatHistory(Nest(runs).batchLosses[c], Nest(runs).batchExSeen[c],
                                             Nest(runs).epochLosses[c], Nest(runs).epochExSeen[c],
                                             Nest(runs).evalLosses[c])
      {
        if c < |init| {
          assert runs[c] == init[c];
        }
      }
    }
  }

  predicate AtMost(a: Ext, b: Ext) {
    b.Inf? || (a.Fin? && a.value <= b.value)
  }

  /** The overall best loss is at most every run's best loss and is one of
      them (or infinite when none is finite). */
  lemma {:induction false} BestOfIsMinimum<V>(runs: seq<TrainResult<V>>)
    ensures forall c :: 0 <= c < |runs| ==> AtMost(BestOf(runs), runs[c].bestEpochLoss)
    ensures BestOf(runs).Fin? ==> exists c :: 0 <= c < |runs| && runs[c].bestEpochLoss == BestOf(runs)
  {
    if runs != [] {
      var init := runs[..|runs| - 1];
      var last := runs[|runs| - 1].bestEpochLoss;
      BestOfIsMinimum(init);
      forall c | 0 <= c < |runs| ensures AtMost(BestOf(runs), runs[c].bestEpochLoss) {
        if c < |init| {
          assert runs[c] == init[c];
        }
      }
      if BestOf(runs).Fin? && BestOf(runs) != last {
        var c :| 0 <= c < |init| && init[c].bestEpochLoss == BestOf(init);
        assert runs[c] == init[c];
      }
    }
  }

  /** `train_bucket_curriculum` over what the curriculum generator
      produces: one run per yielded curriculum, in order, each starting
      with fresh patience and dev history. It fails at the first run that
      fails; if every run succeeds it fails with the generator's exception
      when there is one, and otherwise returns the smallest best loss and
      the histories nested per curriculum. */
  method TrainBucketCurriculum(y: Curriculum.Yielded, numEpochs: int,
                               loss: nat -> (nat, nat, Option<Weight<()>>) -> real,
                               dev: Option<(nat, nat) -> real>, trainPatience: int)
    returns (r: Result<(Ext, NestedHistory), TrainError>)
    requires PositiveBatches(y.phases)
    ensures r.Success? <==> y.raised.None? && AllSucceed(y.phases, numEpochs, loss, dev, trainPatience)
    ensures r.Success? ==>
      var runs := AllRuns(y.phases, numEpochs, loss, dev, trainPatience);
      r.value == (BestOf(runs), Nest(runs))
    ensures AllSucceed(y.phases, numEpochs, loss, dev, trainPatience) && y.raised.Some? ==>
      r == Failure(GeneratorRaised(y.raised.value))
    ensures !AllSucceed(y.phases, numEpochs, loss, dev, trainPatience) ==>
      exists c :: 0 <= c < |y.phases| && CurriculumRun(y.phases, c, numEpochs, loss, dev, trainPatience).Failure?
        && r == Failure(CurriculumRun(y.phases, c, numEpochs, loss, dev, trainPatience).error)
        && forall k :: 0 <= k < c ==> CurriculumRun(y.phases, k, numEpochs, loss, dev, trainPatience).Success?
  {
    var phases := y.phases;
    var best := Inf;
    var batchLosses: seq<seq<real>> := [];
    var batchExSeen: seq<seq<nat>> := [];
    var epochLosses: seq<seq<real>> := [];
    var epochExSeen: seq<seq<nat>> := [];
    var evalLosses: seq<seq<real>> := [];
    ghost var runs: seq<TrainResult<()>> := [];
    var c := 0;
    while c < |phases|
      invariant 0 <= c <= |phases| && |runs| == c
      invariant forall k :: 0 <= k < c ==> CurriculumRun(phases, k, numEpochs, loss, dev, trainPatience) == Success(runs[k])
      invariant NestedHistory(batchLosses, batchExSeen, epochLosses, epochExSeen, evalLosses) == Nest(runs)
      invariant best == BestOf(runs)
    {
      var t := TrainCurriculum(phases, c, numEpochs, loss, dev, trainPatience);
      if t.Failure? {
        FailedCurriculum(phases, c, numEpochs, loss, dev, trainPatience);
        r := Failure(t.error);
        assert r == Failure(CurriculumRun(phases, c, numEpochs, loss, dev, trainPatience).error);
        return;
      }
      NestStep(runs, t.value);
      RunsStep(phases, numEpochs, loss, dev, trainPatience, runs, t.value);
      best := MinExt2(best, t.value.bestEpochLoss);
      batchLosses := batchLosses + [t.value.batchLosses];
      batchExSeen := batchExSeen + [t.value.batchExSeen];
      epochLosses := epochLosses + [t.value.epochLosses];
      epochExSeen := epochExSeen + [t.value.epochExSeen];
      evalLosses := evalLosses + [t.value.evalLosses];
      runs := runs + [t.value];
      c := c + 1;
    }
    AllCurricula(phases, numEpochs, loss, dev, trainPatience, runs);
    if y.raised.Some? {
      return Failure(GeneratorRaised(y.raised.value));
    }
    return Success((best, NestedHistory(batchLosses, batchExSeen, epochLosses, epochExSeen, evalLosses)));
  }

  /** Appending a run appends one entry to every nested list. */
  lemma NestStep<V>(runs: seq<TrainResult<V>>, t: TrainResult<V>)
    ensures var h := Nest(runs);
      Nest(runs + [t]) == NestedHistory(h.batchLosses + [t.batchLosses], h.batchExSeen + [t.batchExSeen],
                                        h.epochLosses + [t.epochLosses], h.epochExSeen + [t.epochExSeen],
                                        h.evalLosses + [t.evalLosses])
    ensures BestOf(runs + [t]) == MinExt2(BestOf(runs), t.bestEpochLoss)
  {
    assert (runs + [t])[..|runs|] == runs;
  }

  /** The runs so far extended by the next curriculum's run. */
  lemma RunsStep(phases: seq<Curriculum.Phase>, numEpochs: int,
                 loss: nat -> (nat, nat, Option<Weight<()>>) -> real,
                 dev: Option<(nat, nat) -> real>, trainPatience: int,
                 runs: seq<TrainResult<()>>, t: TrainResult<()>)
    requires PositiveBatches(phases) && |runs| < |phases|
    requires forall k :: 0 <= k < |runs| ==> CurriculumRun(phases, k, numEpochs, loss, dev, trainPatience) == Success(runs[k])
    requires CurriculumRun(phases, |runs|, numEpochs, loss, dev, trainPatience) == Success(t)
    ensures forall k :: 0 <= k < |runs| + 1 ==>
      CurriculumRun(phases, k, numEpochs, loss, dev, trainPatience) == Success((runs + [t])[k])
  {
    forall k | 0 <= k < |runs| + 1
      ensures CurriculumRun(phases, k, numEpochs, loss, dev, trainPatience) == Success((runs + [t])[k])
    {
      if k < |runs| {
        assert (runs + [t])[k] == runs[k];
      }
    }
  }

  lemma FailedCurriculum(phases: seq<Curriculum.Phase>, c: nat, numEpochs: int,
                         loss: nat -> (nat, nat, Option<Weight<()>>) -> real,
                         dev: Option<(nat, nat) -> real>, trainPatience: int)
    requires PositiveBatches(phases) && c < |phases|
    requires CurriculumRun(phases, c, numEpochs, loss, dev, trainPatience).Failure?
    ensures !AllSucceed(phases, numEpochs, loss, dev, trainPatience)
  {
  }

  lemma AllCurricula(phases: seq<Curriculum.Phase>, numEpochs: int,
                     loss: nat -> (nat, nat, Option<Weight<()>>) -> real,
                     dev: Option<(nat, nat) -> real>, trainPatience: int, runs: seq<TrainResult<()>>)
    requires PositiveBatches(phases) && |runs| == |phases|
    requires forall k :: 0 <= k < |phases| ==> CurriculumRun(phases, k, numEpochs, loss, dev, trainPatience) == Success(runs[k])
    ensures AllSucceed(phases, numEpochs, loss, dev, trainPatience)
    ensures runs == AllRuns(phases, numEpochs, loss, dev, trainPatience)
  {
  }

  /** One iteration of the curriculum loop: a fresh `train_with_dataloader`
      on curriculum `c`'s loader. */
  method TrainCurriculum(phases: seq<Curriculum.Phase>, c: nat, numEpochs: int,
                         loss: nat -> (nat, nat, Option<Weight<()>>) -> real,
                         dev: Option<(nat, nat) -> real>, trainPatience: int)
    returns (t: Result<TrainResult<()>, TrainError>)
    requires c < |phases| && phases[c].loader.batchSize > 0
    ensures t == CurriculumRun(phases, c, numEpochs, loss, dev, trainPatience)
  {
    t := TrainWithDataloader(numEpochs, LoaderSizes(phases[c]), loss(c), DevOf(dev, c), trainPatience, None);
  }

  /** When the bucket size divides the dataset size, `one_pass` yields the
      full buckets, every one of them with `bucketSize` examples, and then
      raises on the empty last bucket; by TrainBucketCurriculum's contract
      bucket training then never succeeds: it trains every full bucket and
      fails with the sampler's error, unless one of those runs fails
      first. */
  lemma DivisibleOnePassFails(intents: seq<string>, utterances: seq<string>, separator: string,
                              bucketSize: nat, batchSize: nat)
    requires |intents| == |utterances| && bucketSize > 0 && |intents| % bucketSize == 0
    requires batchSize > 0
    ensures var y := Curriculum.Yields(Curriculum.Schedule(intents, utterances, separator, Curriculum.OnePass, bucketSize, batchSize));
      && y.raised == Some(Curriculum.EmptySampler)
      && |y.phases| == |intents| / bucketSize
      && PositiveBatches(y.phases)
      && forall b :: 0 <= b < |y.phases| ==> y.phases[b].size == bucketSize
  {
    var sch := Curriculum.Schedule(intents, utterances, separator, Curriculum.OnePass, bucketSize, batchSize);
    if |intents| > 0 {
      Curriculum.DivisibleExtraBucket(bucketSize, |intents|);
    }
    Curriculum.OnePassYields(intents, utterances, separator, bucketSize, batchSize);
    forall b | 0 <= b < |sch| - 1 ensures sch[b].size == bucketSize {
      Curriculum.OnePassSizes(b, bucketSize, |intents|);
    }
  }
}
