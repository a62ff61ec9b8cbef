/** The few-shot dialogue dataset (common/data.py): a text file of lines
    `intent<sep>utterance`, loaded into two aligned lists, and the two
    collate functions that turn a batch of pairs into model input. The
    tokenizer is opaque and passed in as a function. */
module Data {
  import opened Wrappers
  import opened PyStr

  /** The separator the loader uses when none is given. */
  const DefaultSeparator: string := "&"

  /** Default lengths handed to the tokenizer by the collate functions. */
  const MaxIntentLen: nat := 40
  const MaxUtterLen: nat := 60
  const MaxLen: nat := 80

  datatype LineError =
    | EmptySeparator     // `str.split('')` raises ValueError
    | MissingSeparator   // `str_split[1]` raises IndexError

  datatype LoadError = LoadError(line: nat, kind: LineError)

  datatype CollateError = EmptyBatch   // `zip(*[])` has nothing to unpack

  /** One line of the input file: lower-cased, split on the separator, and
      the first two pieces kept (the trailing newline stays in the second). */
  function ParseLine(line: string, separator: string): (r: Result<(string, string), LineError>)
    ensures r.Success? <==> separator != [] && Contains(Lower(line), separator)
    ensures separator == [] ==> r == Failure(EmptySeparator)
  {
    if separator == [] then Failure(EmptySeparator)
    else
      var parts := Split(Lower(line), separator);
      SplitSingle(Lower(line), separator);
      if |parts| < 2 then Failure(MissingSeparator) else Success((parts[0], parts[1]))
  }

  /** What a parsed line is made of: the intent is the lower-cased text up to
      the first separator, the utterance the text from there up to the next
      separator or the end, and whatever follows is dropped. */
  lemma ParseLineShape(line: string, separator: string)
    requires ParseLine(line, separator).Success?
    ensures var (intent, utterance) := ParseLine(line, separator).value;
      && !Contains(intent, separator) && !Contains(utterance, separator)
      && Lower(line)[..|intent| + |separator| + |utterance|] == intent + separator + utterance
      && var rest := Lower(line)[|intent| + |separator| + |utterance|..];
         rest == [] || rest[..|separator|] == separator
  {
    var parts := Split(Lower(line), separator);
    var (intent, utterance) := (parts[0], parts[1]);
    var tail := Join(parts[1..], separator);
    assert Lower(line) == intent + separator + tail;
    if |parts| == 2 {
      assert tail == utterance;
      assert Lower(line) == intent + separator + utterance;
    } else {
      assert parts[1..][1..] == parts[2..];
      var more := Join(parts[2..], separator);
      assert tail == utterance + separator + more;
      assert Lower(line) == (intent + separator + utterance) + (separator + more);
    }
  }

  /** Parsing undoes the file format: a line written as
      `intent + sep + utterance` with a one-character separator, where neither
      half contains the separator or an upper-case letter, reads back as the
      pair. */
  lemma ParseLineRoundTrip(intent: string, utterance: string, separator: string)
    requires |separator| == 1 && IsLowered(separator)
    requires IsLowered(intent) && IsLowered(utterance)
    requires !Contains(intent, separator) && !Contains(utterance, separator)
    ensures ParseLine(intent + separator + utterance, separator) == Success((intent, utterance))
  {
    var line := intent + separator + utterance;
    LowerFixesLowered(line);
    assert Join([intent, utterance], separator) == line;
    SplitJoin([intent, utterance], separator);
  }

  class FewShotWozDataset {
    var separator: string
    var intents: seq<string>
    var utterances: seq<string>

    /** Intents and utterances are aligned by index. */
    ghost predicate Valid()
      reads this
    {
      |intents| == |utterances|
    }

    constructor ()
      ensures Valid()
      ensures separator == [] && intents == [] && utterances == []
    {
      separator := [];
      intents := [];
      utterances := [];
    }

    /** `from_txt_file`, given the file's lines (each with its newline):
        every line is parsed in order and appended; the first line that does
        not parse aborts the load with its exception. */
    static method FromTxtLines(lines: seq<string>, separator: string)
      returns (r: Result<FewShotWozDataset, LoadError>)
      ensures r.Success? <==> forall i :: 0 <= i < |lines| ==> ParseLine(lines[i], separator).Success?
      ensures r.Success? ==>
        && fresh(r.value) && r.value.Valid()
        && r.value.separator == separator
        && |r.value.intents| == |lines|
        && forall i :: 0 <= i < |lines| ==>
             ParseLine(lines[i], separator) == Success((r.value.intents[i], r.value.utterances[i]))
      ensures r.Failure? ==>
        && r.error.line < |lines|
        && ParseLine(lines[r.error.line], separator) == Failure(r.error.kind)
        && forall i :: 0 <= i < r.error.line ==> ParseLine(lines[i], separator).Success?
    {
      var intents: seq<string> := [];
      var utterances: seq<string> := [];
      for i := 0 to |lines|
        invariant |intents| == |utterances| == i
        invariant forall j :: 0 <= j < i ==>
          ParseLine(lines[j], separator) == Success((intents[j], utterances[j]))
      {
        var parsed := ParseLine(lines[i], separator);
        if parsed.Failure? {
          return Failure(LoadError(i, parsed.error));
        }
        intents := intents + [parsed.value.0];
        utterances := utterances + [parsed.value.1];
      }
      var ds := new FewShotWozDataset();
      ds.separator, ds.intents, ds.utterances := separator, intents, utterances;
      return Success(ds);
    }

    /** `__len__`: the number of examples, which is also the number of
        utterances. */
    function Len(): (n: nat)
      reads this
      requires Valid()
      ensures n == |intents| && n == |utterances|
    {
      |intents|
    }

    /** `__getitem__(idx)`: the aligned pair, with Python's negative indices;
        an index outside `[-len, len)` raises IndexError. */
    function GetItem(idx: int): (r: Option<(string, string)>)
      reads this
      requires Valid()
      ensures r.Some? <==> -(|intents| as int) <= idx < |intents|
      ensures 0 <= idx < |intents| ==> r == Some((intents[idx], utterances[idx]))
      ensures -(|intents| as int) <= idx < 0 ==>
        r == Some((intents[|intents| + idx], utterances[|intents| + idx]))
    {
      match PyIndex(|intents|, idx)
      case None => None
      case Some(k) => Some((intents[k], utterances[k]))
    }
  }

  // ---------------------------------------------------------------------
  // Collate functions
  // ---------------------------------------------------------------------

  /** The strings `lm_collate_fn` hands to the tokenizer:
      `f"{intent} {separator} {utterance}"` for every pair, in batch order. */
  function LmRawStrings(data: seq<(string, string)>, separator: string): (r: seq<string>)
    ensures |r| == |data|
  {
    seq(|data|, i requires 0 <= i < |data| => data[i].0 + " " + separator + " " + data[i].1)
  }

  /** The joined string splits back into the pair, each half carrying the
      space put next to the separator. */
  lemma LmRawSplitsBack(data: seq<(string, string)>, separator: string, i: nat)
    requires i < |data| && |separator| == 1 && separator != " "
    requires !Contains(data[i].0, separator) && !Contains(data[i].1, separator)
    ensures Split(LmRawStrings(data, separator)[i], separator) == [data[i].0 + " ", " " + data[i].1]
  {
    var (a, b) := data[i];
    NoSepAfterSpace(a, separator, true);
    NoSepAfterSpace(b, separator, false);
    assert Join([a + " ", " " + b], separator) == a + " " + separator + " " + b;
    SplitJoin([a + " ", " " + b], separator);
  }

  lemma NoSepAfterSpace(a: string, separator: string, atEnd: bool)
    requires |separator| == 1 && separator != " " && !Contains(a, separator)
    ensures !Contains(if atEnd then a + " " else " " + a, separator)
  {
    var t := if atEnd then a + " " else " " + a;
    if Contains(t, separator) {
      var j := Find(t, separator).value;
      assert t[j] == separator[0];
      assert separator == [separator[0]];
      if atEnd {
        assert j < |a| && a[j..j + 1] == t[j..j + 1];
        assert OccursAt(a, separator, j);
      } else {
        assert 0 < j && a[j - 1..j] == t[j..j + 1];
        assert OccursAt(a, separator, j - 1);
      }
      ContainsIff(a, separator);
    }
  }

  /** `lm_collate_fn`: inputs and labels are the same token ids, those of
      the joined strings. */
  function LmCollate<T>(data: seq<(string, string)>, tokenize: (seq<string>, nat) -> T,
                        separator: string): (r: (T, T))
    ensures r.0 == r.1
    ensures r.0 == tokenize(LmRawStrings(data, separator), MaxLen)
  {
    var ids := tokenize(LmRawStrings(data, separator), MaxLen);
    (ids, ids)
  }

  /** `zip(*data)`: the intents and the utterances of a batch, each in batch
      order. An empty batch leaves nothing to unpack. */
  function Unzip(data: seq<(string, string)>): (r: Result<(seq<string>, seq<string>), CollateError>)
    ensures r.Success? <==> |data| > 0
    ensures r.Success? ==> |r.value.0| == |data| && |r.value.1| == |data|
  {
    if |data| == 0 then Failure(EmptyBatch)
    else Success((seq(|data|, i requires 0 <= i < |data| => data[i].0),
                  seq(|data|, i requires 0 <= i < |data| => data[i].1)))
  }

  function Zip(a: seq<string>, b: seq<string>): (r: seq<(string, string)>)
    requires |a| == |b|
  {
    seq(|a|, i requires 0 <= i < |a| => (a[i], b[i]))
  }

  /** Unzipping loses nothing: zipping the two halves back gives the batch. */
  lemma UnzipRoundTrip(data: seq<(string, string)>)
    requires |data| > 0
    ensures Zip(Unzip(data).value.0, Unzip(data).value.1) == data
  {
  }

  /** And zipping two aligned non-empty lists is undone by unzipping. */
  lemma ZipRoundTrip(a: seq<string>, b: seq<string>)
    requires |a| == |b| && |a| > 0
    ensures Unzip(Zip(a, b)) == Success((a, b))
  {
    var (x, y) := Unzip(Zip(a, b)).value;
    assert x == a;
    assert y == b;
  }

  /** `enc_dec_collate_fn`: intents are tokenized with the intent length
      limit as inputs, utterances with the utterance limit as labels. */
  function EncDecCollate<T>(data: seq<(string, string)>, tokenize: (seq<string>, nat) -> T)
    : (r: Result<(T, T), CollateError>)
    ensures r.Success? <==> |data| > 0
    ensures r.Success? ==> exists intents, utterances ::
      && |intents| == |utterances|
      && Zip(intents, utterances) == data
      && r.value == (tokenize(intents, MaxIntentLen), tokenize(utterances, MaxUtterLen))
  {
    match Unzip(data)
    case Failure(e) => Failure(e)
    case Success((intents, utterances)) =>
      UnzipRoundTrip(data);
      Success((tokenize(intents, MaxIntentLen), tokenize(utterances, MaxUtterLen)))
  }
}
