/** The bucket curriculum (common/curriculum.py): every example is scored,
    the examples are stably sorted by difficulty, and the sorted sequence is
    cut into buckets that are trained one after the other, either as
    consecutive disjoint chunks (`one_pass`) or as growing prefixes
    (`baby_step`). */
module Curriculum {
  import opened Wrappers
  import opened PyStr
  import opened Sorting
  import opened Data

  /** A scored pair. Scores are integers: the modelled scoring function
      counts words. */
  datatype Example = Example(intent: string, utterance: string, difficulty: int)

  datatype Policy = OnePass | BabyStep

  datatype CurriculumError =
    | EmptyDataset       // `zip(*[])` in the constructor has nothing to unpack
    | ZeroBucketSize     // `dataset_len // 0`
    | InvalidName        // ValueError: not one_pass / baby_step
    | InvalidBatchSize   // DataLoader refuses a batch size below 1
    | EmptySampler       // RandomSampler refuses an empty bucket

  /** What one bucket is built from: the sliced intents and utterances and
      the dataset's separator. */
  datatype Bucket = Bucket(intents: seq<string>, utterances: seq<string>, separator: string)

  /** A batch source over a bucket (shuffled, last batch kept short). */
  datatype Loader = Loader(data: Bucket, batchSize: nat)

  /** One yielded item: the loader and the number of examples in it. */
  datatype Phase = Phase(loader: Loader, size: nat)

  /** The generator run to its end: the items it yielded, in order, and the
      exception it then raised, if any. */
  datatype Yielded = Yielded(phases: seq<Phase>, raised: Option<CurriculumError>)

  // ---------------------------------------------------------------------
  // Scoring and sorting (constructor)
  // ---------------------------------------------------------------------

  /** `length_score_fn`: whitespace-separated words of both halves. */
  function LengthScore(intent: string, utterance: string): nat {
    WordCount(intent) + WordCount(utterance)
  }

  /** The length score of text written as words joined by single spaces is
      the total number of words. */
  lemma LengthScoreCountsWords(intentWords: seq<string>, utteranceWords: seq<string>)
    requires forall k :: 0 <= k < |intentWords| ==> IsWord(intentWords[k])
    requires forall k :: 0 <= k < |utteranceWords| ==> IsWord(utteranceWords[k])
    ensures LengthScore(Join(intentWords, " "), Join(utteranceWords, " "))
         == |intentWords| + |utteranceWords|
  {
    WordsOfJoin(intentWords);
    WordsOfJoin(utteranceWords);
  }

  /** `[scoring_fn(i, u) for i, u in zip(intents, utterances)]`, kept with
      its pair (`zip` stops at the shorter list). */
  function Scored(intents: seq<string>, utterances: seq<string>, score: (string, string) -> int)
    : (r: seq<Example>)
    ensures |r| == if |intents| <= |utterances| then |intents| else |utterances|
  {
    var n := if |intents| <= |utterances| then |intents| else |utterances|;
    seq(n, i requires 0 <= i < n => Example(intents[i], utterances[i], score(intents[i], utterances[i])))
  }

  predicate ByDifficulty(a: Example, b: Example) {
    a.difficulty <= b.difficulty
  }

  function Difficulty(e: Example): int {
    e.difficulty
  }

  /** `sorted(..., key=lambda pair: pair[2])`. */
  function SortByDifficulty(examples: seq<Example>): seq<Example> {
    Sort(examples, ByDifficulty)
  }

  predicate Aligned(examples: seq<Example>, score: (string, string) -> int) {
    forall i :: 0 <= i < |examples| ==>
      examples[i].difficulty == score(examples[i].intent, examples[i].utterance)
  }

  /** After the sort, difficulties are non-decreasing, the triples are a
      permutation of the scored input, each triple still carries its own
      score, and examples of equal difficulty keep their input order. */
  lemma SortByDifficultyCorrect(intents: seq<string>, utterances: seq<string>,
                                score: (string, string) -> int, d: int)
    ensures var before := Scored(intents, utterances, score);
      var after := SortByDifficulty(before);
      && (forall i, j :: 0 <= i < j < |after| ==> after[i].difficulty <= after[j].difficulty)
      && multiset(after) == multiset(before)
      && Aligned(after, score)
      && FilterKey(after, Difficulty, d) == FilterKey(before, Difficulty, d)
  {
    var before := Scored(intents, utterances, score);
    var after := SortByDifficulty(before);
    KeyOrderTotal(ByDifficulty, Difficulty);
    SortSorted(before, ByDifficulty);
    SortStable(before, ByDifficulty, Difficulty, d);
    forall i | 0 <= i < |after|
      ensures after[i].difficulty == score(after[i].intent, after[i].utterance)
    {
      assert after[i] in multiset(before);
    }
  }

  /** `zip(*sorted_triples)`: the three columns; an empty list cannot be
      unpacked into three names. */
  function Columns(examples: seq<Example>): (r: Result<(seq<string>, seq<string>, seq<int>), CurriculumError>)
    ensures r.Success? <==> |examples| > 0
    ensures r.Success? ==> |r.value.0| == |examples| && |r.value.1| == |examples| && |r.value.2| == |examples|
    ensures r.Success? ==> forall i :: 0 <= i < |examples| ==>
      examples[i] == Example(r.value.0[i], r.value.1[i], r.value.2[i])
  {
    if |examples| == 0 then Failure(EmptyDataset)
    else
      var n := |examples|;
      Success((seq(n, i requires 0 <= i < n => examples[i].intent),
               seq(n, i requires 0 <= i < n => examples[i].utterance),
               seq(n, i requires 0 <= i < n => examples[i].difficulty)))
  }

  // ---------------------------------------------------------------------
  // The bucket schedule
  // ---------------------------------------------------------------------

  /** Python's `a // b` (rounds toward negative infinity). */
  function FloorDiv(a: int, b: int): int
    requires b != 0
  {
    if b > 0 then a / b else (-a) / (-b)
  }

  lemma FloorDivIsFloor(a: int, b: int)
    requires b != 0
    ensures b > 0 ==> FloorDiv(a, b) * b <= a < FloorDiv(a, b) * b + b
    ensures b < 0 ==> FloorDiv(a, b) * b >= a > FloorDiv(a, b) * b + b
  {
    var q := FloorDiv(a, b);
    if b < 0 {
      assert q * (-b) <= -a < q * (-b) + (-b);
    }
  }

  /** `dataset_len // bucket_size + 1`, the number of buckets yielded. */
  function NumBuckets(n: nat, bucketSize: int): int
    requires bucketSize != 0
  {
    FloorDiv(n, bucketSize) + 1
  }

  /** With a positive bucket size the count is `n // bucket_size + 1`, one
      more than the number of full buckets. */
  lemma NumBucketsPositive(n: nat, bucketSize: int)
    requires bucketSize > 0
    ensures NumBuckets(n, bucketSize) >= 1
    ensures (NumBuckets(n, bucketSize) - 1) * bucketSize <= n < NumBuckets(n, bucketSize) * bucketSize
  {
    FloorDivIsFloor(n, bucketSize);
  }

  /** A negative bucket size on a non-empty dataset yields no bucket at all
      (and so raises nothing either). */
  lemma NumBucketsNegative(n: nat, bucketSize: int)
    requires bucketSize < 0 && n > 0
    ensures NumBuckets(n, bucketSize) <= 0
  {
    FloorDivIsFloor(n, bucketSize);
  }

  function Min(a: int, b: int): int {
    if a <= b then a else b
  }

  /** The slice `[start, end)` of bucket `b`. */
  function BucketRange(policy: Policy, b: nat, bucketSize: nat, n: nat): (nat, nat) {
    var end := Min(b * bucketSize + bucketSize, n);
    match policy
    case OnePass => (b * bucketSize, end)
    case BabyStep => (0, end)
  }

  function PolicyOf(name: string): Option<Policy> {
    if name == "one_pass" then Some(OnePass)
    else if name == "baby_step" then Some(BabyStep)
    else None
  }

  lemma MulLe(a: nat, b: nat, c: nat)
    requires a <= b
    ensures a * c <= b * c
  {
  }

  /** Every bucket range lies inside the dataset. */
  lemma BucketRangeInside(policy: Policy, b: nat, bucketSize: nat, n: nat)
    requires bucketSize > 0 && b < NumBuckets(n, bucketSize)
    ensures var (start, end) := BucketRange(policy, b, bucketSize, n);
      start <= end <= n
  {
    NumBucketsPositive(n, bucketSize);
    MulLe(b, NumBuckets(n, bucketSize) - 1, bucketSize);
  }

  /** `one_pass`: bucket `b + 1` starts where bucket `b` ends, so the
      buckets are disjoint and leave no gap. */
  lemma OnePassContiguous(b: nat, bucketSize: nat, n: nat)
    requires bucketSize > 0 && b + 1 < NumBuckets(n, bucketSize)
    ensures BucketRange(OnePass, b, bucketSize, n).1 == BucketRange(OnePass, b + 1, bucketSize, n).0
  {
    NumBucketsPositive(n, bucketSize);
    MulLe(b + 1, NumBuckets(n, bucketSize) - 1, bucketSize);
  }

  /** `one_pass` sizes: every bucket but the last holds exactly
      `bucket_size` examples, the last the remainder `n % bucket_size`
      (none when the bucket size divides `n`). */
  lemma OnePassSizes(b: nat, bucketSize: nat, n: nat)
    requires bucketSize > 0 && b < NumBuckets(n, bucketSize)
    ensures var (start, end) := BucketRange(OnePass, b, bucketSize, n);
      end - start == if b + 1 < NumBuckets(n, bucketSize) then bucketSize else n % bucketSize
  {
    NumBucketsPositive(n, bucketSize);
    if b + 1 < NumBuckets(n, bucketSize) {
      MulLe(b + 1, NumBuckets(n, bucketSize) - 1, bucketSize);
    } else {
      assert b == n / bucketSize;
    }
  }

  /** `baby_step`: each bucket is a prefix of the next, the first is the
      first `one_pass` bucket, and the last is the whole dataset. */
  lemma BabyStepNested(b: nat, bucketSize: nat, n: nat)
    requires bucketSize > 0 && b < NumBuckets(n, bucketSize)
    ensures BucketRange(BabyStep, b, bucketSize, n).0 == 0
    ensures b + 1 < NumBuckets(n, bucketSize) ==>
      BucketRange(BabyStep, b, bucketSize, n).1 <= BucketRange(BabyStep, b + 1, bucketSize, n).1
    ensures BucketRange(BabyStep, 0, bucketSize, n) == BucketRange(OnePass, 0, bucketSize, n)
    ensures b + 1 == NumBuckets(n, bucketSize) ==> BucketRange(BabyStep, b, bucketSize, n) == (0, n)
  {
    NumBucketsPositive(n, bucketSize);
  }

  /** When the bucket size divides the dataset size the schedule as written
      has an extra bucket: under `one_pass` it is empty, under `baby_step`
      the last two buckets are both the whole dataset. */
  lemma DivisibleExtraBucket(bucketSize: nat, n: nat)
    requires bucketSize > 0 && n > 0 && n % bucketSize == 0
    ensures NumBuckets(n, bucketSize) == n / bucketSize + 1 >= 2
    ensures var last := NumBuckets(n, bucketSize) - 1;
      && BucketRange(OnePass, last, bucketSize, n) == (n, n)
      && BucketRange(BabyStep, last - 1, bucketSize, n) == (0, n)
      && BucketRange(BabyStep, last, bucketSize, n) == (0, n)
  {
    NumBucketsPositive(n, bucketSize);
    assert n / bucketSize >= 1;
    assert (n / bucketSize) * bucketSize == n;
  }

  /** The slices of all buckets `b < k` of a `one_pass` schedule. */
  function OnePassSlices<T>(s: seq<T>, bucketSize: nat, k: nat): seq<seq<T>>
    requires bucketSize > 0 && k <= NumBuckets(|s|, bucketSize)
  {
    seq(k, b requires 0 <= b < k =>
      var (start, end) := BucketRange(OnePass, b, bucketSize, |s|);
      BucketRangeInside(OnePass, b, bucketSize, |s|);
      s[start..end])
  }

  function Concat<T>(ss: seq<seq<T>>): seq<T> {
    if ss == [] then [] else Concat(ss[..|ss| - 1]) + ss[|ss| - 1]
  }

  lemma {:induction false} OnePassPrefix<T>(s: seq<T>, bucketSize: nat, k: nat)
    requires bucketSize > 0 && k <= NumBuckets(|s|, bucketSize)
    ensures Concat(OnePassSlices(s, bucketSize, k)) == s[..Min(k * bucketSize, |s|)]
  {
    if k > 0 {
      var ss := OnePassSlices(s, bucketSize, k);
      assert ss[..k - 1] == OnePassSlices(s, bucketSize, k - 1);
      OnePassPrefix(s, bucketSize, k - 1);
      OnePassLastSlice(s, bucketSize, k);
      var start, end := (k - 1) * bucketSize, Min(k * bucketSize, |s|);
      assert s[..start] + s[start..end] == s[..end];
    }
  }

  /** The last of the first `k` buckets starts inside the data at
      `(k - 1) * bucket_size`. */
  lemma OnePassLastSlice<T>(s: seq<T>, bucketSize: nat, k: nat)
    requires bucketSize > 0 && 0 < k <= NumBuckets(|s|, bucketSize)
    ensures var start, end := (k - 1) * bucketSize, Min(k * bucketSize, |s|);
      && start <= end && Min(start, |s|) == start
      && OnePassSlices(s, bucketSize, k)[k - 1] == s[start..end]
  {
    BucketRangeInside(OnePass, k - 1, bucketSize, |s|);
    assert (k - 1) * bucketSize + bucketSize == k * bucketSize;
  }

  /** `one_pass` covers the sorted data exactly once: the buckets, put end
      to end, are the whole sequence. */
  lemma OnePassCovers<T>(s: seq<T>, bucketSize: nat)
    requires bucketSize > 0
    ensures Concat(OnePassSlices(s, bucketSize, NumBuckets(|s|, bucketSize))) == s
  {
    OnePassPrefix(s, bucketSize, NumBuckets(|s|, bucketSize));
    NumBucketsPositive(|s|, bucketSize);
    assert s[..|s|] == s;
  }

  /** A worked schedule, ten examples and bucket size 3: four buckets,
      the last holding one example. */
  lemma TenExamplesBySizeThree()
    ensures NumBuckets(10, 3) == 4
    ensures BucketRange(OnePass, 0, 3, 10) == (0, 3) && BucketRange(OnePass, 1, 3, 10) == (3, 6)
    ensures BucketRange(OnePass, 2, 3, 10) == (6, 9) && BucketRange(OnePass, 3, 3, 10) == (9, 10)
  {
  }

  // ---------------------------------------------------------------------
  // The curriculum object
  // ---------------------------------------------------------------------

  class BucketCurriculum {
    const dataset: FewShotWozDataset
    var intents: seq<string>
    var utterances: seq<string>
    var difficulty: seq<int>

    /** The three columns are aligned, and as long as the dataset. */
    ghost predicate Valid()
      reads this, dataset
    {
      && |intents| == |utterances| == |difficulty|
      && |intents| == |dataset.intents| > 0
      && dataset.Valid()
    }

    function Examples(): seq<Example>
      reads this
      requires |intents| == |utterances| == |difficulty|
    {
      var (a, b, c) := (intents, utterances, difficulty);
      seq(|a|, i requires 0 <= i < |a| => Example(a[i], b[i], c[i]))
    }

    /** The first half of `__init__`: keep the dataset's columns and score
        every pair. */
    constructor Init(dataset: FewShotWozDataset, score: (string, string) -> int)
      requires dataset.Valid()
      ensures this.dataset == dataset
      ensures intents == dataset.intents && utterances == dataset.utterances
      ensures |difficulty| == |intents|
      ensures Examples() == Scored(dataset.intents, dataset.utterances, score)
    {
      this.dataset := dataset;
      intents := dataset.intents;
      utterances := dataset.utterances;
      var scored := Scored(dataset.intents, dataset.utterances, score);
      difficulty := seq(|scored|, i requires 0 <= i < |scored| => scored[i].difficulty);
      new;
      assert forall i :: 0 <= i < |scored| ==> Examples()[i] == scored[i];
    }

    /** The second half of `__init__`: replace the columns by those of the
        stably sorted triples; an empty dataset cannot be unpacked. */
    method SortColumns() returns (r: Result<(), CurriculumError>)
      requires |intents| == |utterances| == |difficulty|
      modifies this
      ensures |intents| == |utterances| == |difficulty|
      ensures r.Success? <==> |old(intents)| > 0
      ensures r.Success? ==> Examples() == SortByDifficulty(old(Examples()))
      ensures r.Failure? ==> r.error == EmptyDataset && unchanged(this)
    {
      var sorted := SortByDifficulty(Examples());
      var columns := Columns(sorted);
      if columns.Failure? {
        return Failure(columns.error);
      }
      intents, utterances, difficulty := columns.value.0, columns.value.1, columns.value.2;
      assert forall i :: 0 <= i < |sorted| ==> Examples()[i] == sorted[i];
      return Success(());
    }

    /** `BucketCurriculum(dataset, scoring_fn)`. */
    static method Create(dataset: FewShotWozDataset, score: (string, string) -> int)
      returns (r: Result<BucketCurriculum, CurriculumError>)
      requires dataset.Valid()
      ensures r.Success? <==> |dataset.intents| > 0
      ensures r.Failure? ==> r.error == EmptyDataset
      ensures r.Success? ==>
        && fresh(r.value) && r.value.dataset == dataset && r.value.Valid()
        && r.value.Examples() == SortByDifficulty(Scored(dataset.intents, dataset.utterances, score))
    {
      var c := new BucketCurriculum.Init(dataset, score);
      var sorted := c.SortColumns();
      if sorted.Failure? {
        return Failure(sorted.error);
      }
      return Success(c);
    }

    /** `get_curriculum(bucket_size, batch_size, name, collate_fn)`, the
        generator run to the end. A zero bucket size, an unknown name and a
        batch size below 1 raise before anything is yielded; an empty
        bucket raises (in `RandomSampler`) after the buckets before it have
        been yielded. */
    method GetCurriculum(bucketSize: int, batchSize: int, name: string) returns (r: Yielded)
      requires Valid()
      ensures bucketSize == 0 ==> r == Yielded([], Some(ZeroBucketSize))
      ensures bucketSize < 0 ==> r == Yielded([], None)
      ensures bucketSize > 0 && PolicyOf(name).None? ==> r == Yielded([], Some(InvalidName))
      ensures bucketSize > 0 && PolicyOf(name).Some? && batchSize <= 0 ==> r == Yielded([], Some(InvalidBatchSize))
      ensures bucketSize > 0 && PolicyOf(name).Some? && batchSize > 0 ==>
        r == Yields(Schedule(intents, utterances, dataset.separator, PolicyOf(name).value, bucketSize, batchSize))
    {
      if bucketSize == 0 {
        return Yielded([], Some(ZeroBucketSize));
      }
      var n := dataset.Len();
      var numBuckets := NumBuckets(n, bucketSize);
      if bucketSize < 0 {
        NumBucketsNegative(n, bucketSize);
        return Yielded([], None);
      }
      NumBucketsPositive(n, bucketSize);
      var phases: seq<Phase> := [];
      var b := 0;
      while b < numBuckets
        invariant 0 <= b <= numBuckets && |phases| == b
        invariant b > 0 ==> PolicyOf(name).Some? && batchSize > 0
        invariant forall k :: 0 <= k < b ==>
          phases[k] == PhaseAt(intents, utterances, dataset.separator, PolicyOf(name).value, bucketSize, batchSize, k)
        invariant forall k :: 0 <= k < b ==> phases[k].size > 0
      {
        var start, end;
        if name == "one_pass" {
          start, end := b * bucketSize, Min(b * bucketSize + bucketSize, n);
        } else if name == "baby_step" {
          start, end := 0, Min(b * bucketSize + bucketSize, n);
        } else {
          return Yielded([], Some(InvalidName));
        }
        BucketRangeInside(PolicyOf(name).value, b, bucketSize, n);
        assert (start, end) == BucketRange(PolicyOf(name).value, b, bucketSize, n);
        if end - start == 0 {
          assert b > 0;
          ghost var sch := Schedule(intents, utterances, dataset.separator, PolicyOf(name).value, bucketSize, batchSize);
          assert phases == sch[..b];
          YieldsUpToEmpty(sch, phases);
          return Yielded(phases, Some(EmptySampler));
        }
        if batchSize <= 0 {
          return Yielded([], Some(InvalidBatchSize));
        }
        var bucket := Bucket(intents[start..end], utterances[start..end], dataset.separator);
        phases := phases + [Phase(Loader(bucket, batchSize), end - start)];
        b := b + 1;
      }
      ghost var expected := Schedule(intents, utterances, dataset.separator, PolicyOf(name).value, bucketSize, batchSize);
      assert forall k :: 0 <= k < |expected| ==> phases[k] == expected[k];
      assert phases == expected;
      return Yielded(phases, None);
    }
  }

  /** Where the generator stops: the first empty bucket, or the end. */
  function FirstEmpty(sch: seq<Phase>): (r: nat)
    ensures r <= |sch|
    ensures forall k :: 0 <= k < r ==> sch[k].size > 0
    ensures r < |sch| ==> sch[r].size == 0
  {
    if sch == [] then 0
    else if sch[0].size == 0 then 0
    else 1 + FirstEmpty(sch[1..])
  }

  /** What the generator produces from its full schedule when nothing
      raises earlier: the buckets up to the first empty one, and then the
      sampler's error if there is an empty one. */
  function Yields(sch: seq<Phase>): (r: Yielded)
    ensures r.phases <= sch
    ensures r.raised.None? <==> forall k :: 0 <= k < |sch| ==> sch[k].size > 0
    ensures r.raised.None? ==> r.phases == sch
    ensures r.raised.Some? ==> r.raised == Some(EmptySampler) && |r.phases| < |sch| && sch[|r.phases|].size == 0
    ensures forall k :: 0 <= k < |r.phases| ==> r.phases[k].size > 0
  {
    var k := FirstEmpty(sch);
    if k < |sch| then Yielded(sch[..k], Some(EmptySampler)) else Yielded(sch, None)
  }

  /** The generator stops at the first empty bucket after a non-empty run. */
  lemma YieldsUpToEmpty(sch: seq<Phase>, prefix: seq<Phase>)
    requires prefix < sch && sch[|prefix|].size == 0
    requires forall k :: 0 <= k < |prefix| ==> prefix[k].size > 0
    ensures Yields(sch) == Yielded(prefix, Some(EmptySampler))
  {
    assert FirstEmpty(sch) == |prefix|;
  }

  /** Bucket `b` of a schedule over aligned columns. */
  function PhaseAt(intents: seq<string>, utterances: seq<string>, separator: string,
                   policy: Policy, bucketSize: nat, batchSize: nat, b: nat): Phase
    requires |intents| == |utterances| && bucketSize > 0 && b < NumBuckets(|intents|, bucketSize)
  {
    var (start, end) := BucketRange(policy, b, bucketSize, |intents|);
    BucketRangeInside(policy, b, bucketSize, |intents|);
    Phase(Loader(Bucket(intents[start..end], utterances[start..end], separator), batchSize), end - start)
  }

  /** Everything `get_curriculum` yields, in order, when it raises nothing. */
  function Schedule(intents: seq<string>, utterances: seq<string>, separator: string,
                    policy: Policy, bucketSize: nat, batchSize: nat): (r: seq<Phase>)
    requires |intents| == |utterances| && bucketSize > 0
    ensures |r| == NumBuckets(|intents|, bucketSize)
  {
    NumBucketsPositive(|intents|, bucketSize);
    var k := NumBuckets(|intents|, bucketSize);
    seq(k, b requires 0 <= b < k => PhaseAt(intents, utterances, separator, policy, bucketSize, batchSize, b))
  }

  /** Under `one_pass` every example is trained exactly once per run: the
      buckets' intents, put end to end, are the sorted intents, and the same
      for the utterances. Every bucket shares the dataset's separator. */
  lemma OnePassScheduleCovers(intents: seq<string>, utterances: seq<string>, separator: string,
                              bucketSize: nat, batchSize: nat)
    requires |intents| == |utterances| && bucketSize > 0
    ensures var sch := Schedule(intents, utterances, separator, OnePass, bucketSize, batchSize);
      && Concat(seq(|sch|, b requires 0 <= b < |sch| => sch[b].loader.data.intents)) == intents
      && Concat(seq(|sch|, b requires 0 <= b < |sch| => sch[b].loader.data.utterances)) == utterances
      && forall b :: 0 <= b < |sch| ==> sch[b].loader.data.separator == separator
  {
    var sch := Schedule(intents, utterances, separator, OnePass, bucketSize, batchSize);
    var k := NumBuckets(|intents|, bucketSize);
    assert seq(|sch|, b requires 0 <= b < |sch| => sch[b].loader.data.intents) == OnePassSlices(intents, bucketSize, k);
    assert seq(|sch|, b requires 0 <= b < |sch| => sch[b].loader.data.utterances) == OnePassSlices(utterances, bucketSize, k);
    OnePassCovers(intents, bucketSize);
    OnePassCovers(utterances, bucketSize);
  }

  /** Under `baby_step` each bucket's examples are a prefix of the next
      bucket's and the last bucket is the whole sorted dataset. */
  lemma BabyStepScheduleGrows(intents: seq<string>, utterances: seq<string>, separator: string,
                              bucketSize: nat, batchSize: nat, b: nat)
    requires |intents| == |utterances| && bucketSize > 0
    requires b < NumBuckets(|intents|, bucketSize)
    ensures var sch := Schedule(intents, utterances, separator, BabyStep, bucketSize, batchSize);
      && (b + 1 < |sch| ==>
            sch[b].loader.data.intents <= sch[b + 1].loader.data.intents
            && sch[b].loader.data.utterances <= sch[b + 1].loader.data.utterances)
      && (b + 1 == |sch| ==>
            sch[b].loader.data == Bucket(intents, utterances, separator) && sch[b].size == |intents|)
  {
    BabyStepNested(b, bucketSize, |intents|);
    if b + 1 < NumBuckets(|intents|, bucketSize) {
      BucketRangeInside(BabyStep, b + 1, bucketSize, |intents|);
    } else {
      assert intents[0..|intents|] == intents;
      assert utterances[0..|utterances|] == utterances;
    }
  }

  /** Under `one_pass` the generator yields every bucket, except that when
      the bucket size divides the dataset size the last bucket is empty:
      the full buckets are yielded and then the sampler raises. */
  lemma OnePassYields(intents: seq<string>, utterances: seq<string>, separator: string,
                      bucketSize: nat, batchSize: nat)
    requires |intents| == |utterances| && bucketSize > 0
    ensures var sch := Schedule(intents, utterances, separator, OnePass, bucketSize, batchSize);
      Yields(sch) == if |intents| % bucketSize == 0 then Yielded(sch[..|sch| - 1], Some(EmptySampler))
                     else Yielded(sch, None)
  {
    var sch := Schedule(intents, utterances, separator, OnePass, bucketSize, batchSize);
    var n := |intents|;
    forall b | 0 <= b < |sch|
      ensures sch[b].size == if b + 1 < |sch| then bucketSize else n % bucketSize
    {
      OnePassSizes(b, bucketSize, n);
    }
    if n % bucketSize == 0 {
      YieldsUpToEmpty(sch, sch[..|sch| - 1]);
    }
  }

  /** Under `baby_step` no bucket of a non-empty dataset is empty, so the
      generator yields its whole schedule. */
  lemma BabyStepYields(intents: seq<string>, utterances: seq<string>, separator: string,
                       bucketSize: nat, batchSize: nat)
    requires |intents| == |utterances| > 0 && bucketSize > 0
    ensures var sch := Schedule(intents, utterances, separator, BabyStep, bucketSize, batchSize);
      Yields(sch) == Yielded(sch, None)
  {
    var sch := Schedule(intents, utterances, separator, BabyStep, bucketSize, batchSize);
    forall b | 0 <= b < |sch| ensures sch[b].size > 0 {
      MulLe(0, b, bucketSize);
    }
  }
}
