/** The dialogue-act parser and feature formatter (utils/FeatParser.py).
    A dialogue act such as `inform(name='x';area=dont_care)` is parsed into
    its act type and a list of slot/value pairs, with special values unified
    to their canonical key and every other value delexicalised to `_`; the
    formatter then turns the pairs into sorted features in which repeated
    delexicalised slots are numbered `_1`, `_2`, ... The special-values
    table, read from a JSON file by the source, is a parameter here: an
    ordered sequence of (key, listed values). */
module FeatParser {
  import opened Wrappers
  import opened PyStr
  import opened Sorting

  type SpecialValues = seq<(string, seq<string>)>

  /** One entry of `s2v`: `(None, None)` for an empty piece, else
      `(slot, value)`. */
  datatype S2V = NoSlot | SlotVal(slot: string, value: string)

  datatype DAct = DAct(acttype: string, s2v: seq<S2V>)

  datatype ParseError =
    | NoOpenParen       // `dact.split('(')[1]` raises IndexError
    | EmptySvSep        // `split('')` raises ValueError
    | NotAPair(piece: nat)  // `s, v = ...` on three or more `=`-fields

  /** `v in special_values.keys()`. */
  predicate IsKey(v: string, table: SpecialValues) {
    exists k :: 0 <= k < |table| && table[k].0 == v
  }

  // ---------------------------------------------------------------------
  // Unifying special values
  // ---------------------------------------------------------------------

  /** The loop `for key, vals in special_values.items(): if v in vals: v = key`
      over the entries in order: each entry tests the value as rebound by
      the entries before it. */
  function Unify(v: string, table: SpecialValues): string
    decreases |table|
  {
    if table == [] then v
    else
      var w := Unify(v, table[..|table| - 1]);
      if w in table[|table| - 1].1 then table[|table| - 1].0 else w
  }

  /** A value unification changes is always replaced by a key. */
  lemma {:induction false} UnifyRange(v: string, table: SpecialValues)
    ensures Unify(v, table) == v || IsKey(Unify(v, table), table)
    decreases |table|
  {
    if table != [] {
      var init := table[..|table| - 1];
      UnifyRange(v, init);
      if Unify(v, init) != v && Unify(v, table) == Unify(v, init) {
        var k :| 0 <= k < |init| && init[k].0 == Unify(v, init);
        assert table[k].0 == Unify(v, table);
      }
    }
  }

  /** A value listed nowhere is left as it is. */
  lemma {:induction false} UnifyUnlisted(v: string, table: SpecialValues)
    requires forall k :: 0 <= k < |table| ==> v !in table[k].1
    ensures Unify(v, table) == v
    decreases |table|
  {
    if table != [] {
      UnifyUnlisted(v, table[..|table| - 1]);
    }
  }

  /** A value listed under some key ends up as a key. */
  lemma {:induction false} UnifyListed(v: string, table: SpecialValues, k: nat)
    requires k < |table| && v in table[k].1
    ensures IsKey(Unify(v, table), table)
    decreases |table|
  {
    var init := table[..|table| - 1];
    var last := |table| - 1;
    if Unify(v, init) !in table[last].1 {
      if k == last {
        UnifyRange(v, init);
        var j :| 0 <= j < |init| && init[j].0 == Unify(v, init);
        assert table[j].0 == Unify(v, table);
      } else {
        UnifyListed(v, init, k);
        var j :| 0 <= j < |init| && init[j].0 == Unify(v, init);
        assert table[j].0 == Unify(v, table);
      }
    }
  }

  // ---------------------------------------------------------------------
  // Parsing
  // ---------------------------------------------------------------------

  /** `dact.split('(')[0]`. */
  function ActType(dact: string): (r: string)
    ensures !Contains(r, "(")
  {
    Split(dact, "(")[0]
  }

  /** `dact.split('(')[1].replace(')', '').split(sv_sep)`. */
  function Pieces(dact: string, svSep: string): (r: Result<seq<string>, ParseError>)
    ensures r.Success? <==> Contains(dact, "(") && svSep != []
    ensures !Contains(dact, "(") ==> r == Failure(NoOpenParen)
    ensures r.Success? ==> forall k :: 0 <= k < |r.value| ==> !Contains(r.value[k], svSep)
  {
    var parts := Split(dact, "(");
    SplitSingle(dact, "(");
    if |parts| < 2 then Failure(NoOpenParen)
    else if svSep == [] then Failure(EmptySvSep)
    else Success(Split(RemoveChar(parts[1], ')'), svSep))
  }

  /** `x.strip('\'"').strip()`. */
  function CleanField(x: string): string {
    StripSpace(StripQuotes(x))
  }

  /** `s.replace('_', '').replace(' ', '')`. */
  function SlotName(x: string): (r: string)
    ensures '_' !in r && ' ' !in r
  {
    var a := RemoveChar(x, '_');
    RemoveCharKeepsAbsent(a, ' ', '_');
    RemoveChar(a, ' ')
  }

  /** One `sv_sep`-separated piece: empty is "no slot"; without `=` it is a
      requested slot (value `?`); with one `=` a slot and a value, unified
      and, unless values are kept, delexicalised when it is not a key;
      more than one `=` cannot be unpacked into two names. */
  function ParsePiece(piece: string, table: SpecialValues, keepValues: bool): Option<S2V> {
    if piece == [] then Some(NoSlot)
    else if !Contains(piece, "=") then Some(SlotVal(StripQuotes(SlotName(piece)), "?"))
    else
      var fields := Split(piece, "=");
      if |fields| != 2 then None
      else
        var v := Unify(CleanField(fields[1]), table);
        Some(SlotVal(SlotName(CleanField(fields[0])), if !IsKey(v, table) && !keepValues then "_" else v))
  }

  /** Only a piece with two or more `=` fails, and only the empty piece
      is "no slot". */
  lemma ParsePieceCases(piece: string, table: SpecialValues, keepValues: bool)
    ensures ParsePiece(piece, table, keepValues).None? <==> Contains(piece, "=") && |Split(piece, "=")| > 2
    ensures ParsePiece(piece, table, keepValues) == Some(NoSlot) <==> piece == []
  {
    if Contains(piece, "=") {
      SplitSingle(piece, "=");
    }
  }

  lemma StripKeepsAbsent(s: string, drop: char -> bool, c: char)
    requires c !in s
    ensures c !in Strip(s, drop)
  {
    StripInfix(s, drop);
    var r := Strip(s, drop);
    var i := |s| - |LStrip(s, drop)|;
    assert forall k :: 0 <= k < |r| ==> r[k] == s[i + k];
  }

  /** What a parsed piece can hold: slot names carry no `_` or space, and a
      value is `?`, `_`, a special key, or (only when values are kept) the
      value as written, unified. */
  lemma ParsePieceShape(piece: string, table: SpecialValues, keepValues: bool)
    requires ParsePiece(piece, table, keepValues).Some?
    ensures match ParsePiece(piece, table, keepValues).value
      case NoSlot => true
      case SlotVal(s, v) =>
        && '_' !in s && ' ' !in s
        && (v == "?" || v == "_" || IsKey(v, table) || keepValues)
  {
    if piece == [] {
    } else if !Contains(piece, "=") {
      RequestedSlot(piece, table, keepValues);
      QuotesStrippedName(piece);
    } else {
      PairShape(piece, table, keepValues);
    }
  }

  lemma PairShape(piece: string, table: SpecialValues, keepValues: bool)
    requires ParsePiece(piece, table, keepValues).Some? && Contains(piece, "=")
    ensures ParsePiece(piece, table, keepValues).value.SlotVal?
    ensures var sv := ParsePiece(piece, table, keepValues).value;
      && '_' !in sv.slot && ' ' !in sv.slot
      && (sv.value == "_" || IsKey(sv.value, table) || keepValues)
  {
  }

  lemma RequestedSlot(piece: string, table: SpecialValues, keepValues: bool)
    requires piece != [] && !Contains(piece, "=")
    ensures ParsePiece(piece, table, keepValues) == Some(SlotVal(StripQuotes(SlotName(piece)), "?"))
  {
  }

  lemma QuotesStrippedName(piece: string)
    ensures '_' !in StripQuotes(SlotName(piece)) && ' ' !in StripQuotes(SlotName(piece))
  {
    StripKeepsAbsent(SlotName(piece), IsQuote, '_');
    StripKeepsAbsent(SlotName(piece), IsQuote, ' ');
  }

  /** The first piece that is not a pair, looking from `i` on. */
  function FirstBad(pieces: seq<string>, table: SpecialValues, keepValues: bool, i: nat): (r: Option<nat>)
    requires i <= |pieces|
    ensures r.Some? ==> i <= r.value < |pieces| && ParsePiece(pieces[r.value], table, keepValues).None?
    ensures r.Some? ==> forall j :: i <= j < r.value ==> ParsePiece(pieces[j], table, keepValues).Some?
    ensures r.None? ==> forall j :: i <= j < |pieces| ==> ParsePiece(pieces[j], table, keepValues).Some?
    decreases |pieces| - i
  {
    if i == |pieces| then None
    else if ParsePiece(pieces[i], table, keepValues).None? then Some(i)
    else FirstBad(pieces, table, keepValues, i + 1)
  }

  /** What `parse` returns: the act type and one entry per piece, or the
      first exception raised. */
  function ParseSpec(dact: string, svSep: string, table: SpecialValues, keepValues: bool)
    : (r: Result<DAct, ParseError>)
    ensures r.Success? ==> Pieces(dact, svSep).Success? && |r.value.s2v| == |Pieces(dact, svSep).value|
  {
    match Pieces(dact, svSep)
    case Failure(e) => Failure(e)
    case Success(pieces) =>
      match FirstBad(pieces, table, keepValues, 0)
      case Some(i) => Failure(NotAPair(i))
      case None =>
        Success(DAct(ActType(dact),
          seq(|pieces|, i requires 0 <= i < |pieces| => ParsePiece(pieces[i], table, keepValues).value)))
  }

  lemma ParseSpecSuccess(dact: string, svSep: string, table: SpecialValues, keepValues: bool,
                         pieces: seq<string>, s2v: seq<S2V>)
    requires Pieces(dact, svSep) == Success(pieces) && |s2v| == |pieces|
    requires forall j :: 0 <= j < |pieces| ==> ParsePiece(pieces[j], table, keepValues) == Some(s2v[j])
    ensures ParseSpec(dact, svSep, table, keepValues) == Success(DAct(ActType(dact), s2v))
  {
    var expected := seq(|pieces|, j requires 0 <= j < |pieces| => ParsePiece(pieces[j], table, keepValues).value);
    assert s2v == expected;
  }

  lemma ParseSpecFailure(dact: string, svSep: string, table: SpecialValues, keepValues: bool,
                         pieces: seq<string>, i: nat)
    requires Pieces(dact, svSep) == Success(pieces) && i < |pieces|
    requires forall j :: 0 <= j < i ==> ParsePiece(pieces[j], table, keepValues).Some?
    requires ParsePiece(pieces[i], table, keepValues).None?
    ensures ParseSpec(dact, svSep, table, keepValues) == Failure(NotAPair(i))
  {
  }

  lemma RemoveAbsent(s: string, c: char)
    requires c !in s
    ensures RemoveChar(s, c) == s
  {
    if s != [] {
      RemoveAbsent(s[1..], c);
      assert s == [s[0]] + s[1..];
    }
  }

  lemma RemoveLast(s: string, c: char)
    ensures RemoveChar(s + [c], c) == RemoveChar(s, c)
  {
    if s != [] {
      assert (s + [c])[1..] == s[1..] + [c];
      RemoveLast(s[1..], c);
    } else {
      assert [c][1..] == [];
    }
  }

  /** Parsing reads back the written form `act(body)`: the act type is the
      text before the parenthesis and the pieces are the body split on the
      separator. */
  lemma ParseWrittenForm(act: string, body: string, svSep: string, table: SpecialValues, keepValues: bool)
    requires !Contains(act, "(") && !Contains(body, "(") && ')' !in body && svSep != []
    ensures ActType(act + "(" + body + ")") == act
    ensures Pieces(act + "(" + body + ")", svSep) == Success(Split(body, svSep))
  {
    var dact := act + "(" + body + ")";
    assert !Contains(body + ")", "(") by {
      if Contains(body + ")", "(") {
        var j := Find(body + ")", "(").value;
        assert (body + ")")[j] == '(';
        assert j < |body| && body[j..j + 1] == "(";
        assert OccursAt(body, "(", j);
        ContainsIff(body, "(");
      }
    }
    assert Join([act, body + ")"], "(") == dact;
    SplitJoin([act, body + ")"], "(");
    RemoveLast(body, ')');
    RemoveAbsent(body, ')');
  }

  /** The immutable parser: `intent_sep` is stored but never read by
      `parse`. */
  datatype DialogActParser = DialogActParser(intentSep: string, svSep: string, specialValues: SpecialValues)
  {
    /** The unification loop of `parse`. */
    method UnifyValue(v: string) returns (u: string)
      ensures u == Unify(v, specialValues)
    {
      u := v;
      for k := 0 to |specialValues|
        invariant u == Unify(v, specialValues[..k])
      {
        assert specialValues[..k + 1][..k] == specialValues[..k];
        if u in specialValues[k].1 {
          u := specialValues[k].0;
        }
      }
      assert specialValues[..|specialValues|] == specialValues;
    }

    /** The body of the loop in `parse`: one piece, or `None` when its
        fields cannot be unpacked into a slot and a value. */
    method ParseOne(piece: string, keepValues: bool) returns (item: Option<S2V>)
      ensures item == ParsePiece(piece, specialValues, keepValues)
    {
      if piece == [] {
        return Some(NoSlot);
      } else if !Contains(piece, "=") {
        return Some(SlotVal(StripQuotes(SlotName(piece)), "?"));
      }
      var fields := Split(piece, "=");
      if |fields| != 2 {
        return None;
      }
      var s := SlotName(CleanField(fields[0]));
      var v := UnifyValue(CleanField(fields[1]));
      if !IsKey(v, specialValues) && !keepValues {
        v := "_";
      }
      return Some(SlotVal(s, v));
    }

    /** `parse(dact, keep_values)`. */
    method Parse(dact: string, keepValues: bool) returns (r: Result<DAct, ParseError>)
      ensures r == ParseSpec(dact, svSep, specialValues, keepValues)
    {
      var parts := Split(dact, "(");
      SplitParts(dact, svSep, specialValues, keepValues);
      if |parts| < 2 {
        return Failure(NoOpenParen);
      }
      if svSep == [] {
        return Failure(EmptySvSep);
      }
      var pieces := Split(RemoveChar(parts[1], ')'), svSep);
      var s2v := ParsePieces(pieces, keepValues);
      if s2v.Failure? {
        PiecesFromFailure(pieces, PieceParser(specialValues, keepValues), 0);
        ParseSpecFailure(dact, svSep, specialValues, keepValues, pieces, s2v.error);
        return Failure(NotAPair(s2v.error));
      }
      PiecesFromSuccess(pieces, PieceParser(specialValues, keepValues), 0);
      assert forall j :: 0 <= j < |pieces| ==> PieceParser(specialValues, keepValues)(pieces[0 + j]) == Some(s2v.value[j]);
      ParseSpecSuccess(dact, svSep, specialValues, keepValues, pieces, s2v.value);
      return Success(DAct(parts[0], s2v.value));
    }

    /** The loop of `parse` over the pieces; fails with the index of the
        first piece that is not a pair. */
    method ParsePieces(pieces: seq<string>, keepValues: bool) returns (r: Result<seq<S2V>, nat>)
      ensures r == PiecesFrom(pieces, PieceParser(specialValues, keepValues), 0)
    {
      ghost var parse := PieceParser(specialValues, keepValues);
      var s2v: seq<S2V> := [];
      ghost var all := PiecesFrom(pieces, parse, 0);
      if all.Success? {
        assert [] + all.value == all.value;
      }
      for i := 0 to |pieces|
        invariant PiecesFrom(pieces, parse, 0) == After(s2v, PiecesFrom(pieces, parse, i))
      {
        var item := ParseOne(pieces[i], keepValues);
        if item.None? {
          PiecesRejected(pieces, parse, i);
          return Failure(i);
        }
        PiecesAccepted(pieces, parse, i, s2v, item.value);
        s2v := s2v + [item.value];
      }
      assert s2v + [] == s2v;
      return Success(s2v);
    }
  }

  /** `ParsePiece` with its table and flag fixed. */
  function PieceParser(table: SpecialValues, keepValues: bool): string -> Option<S2V> {
    p => ParsePiece(p, table, keepValues)
  }

  /** The entries of the pieces from `i` on, or the index of the first one
      that `parse` rejects. */
  function PiecesFrom(pieces: seq<string>, parse: string -> Option<S2V>, i: nat): Result<seq<S2V>, nat>
    requires i <= |pieces|
    decreases |pieces| - i
  {
    if i == |pieces| then Success([])
    else match parse(pieces[i])
      case None => Failure(i)
      case Some(x) =>
        var rest := PiecesFrom(pieces, parse, i + 1);
        if rest.Failure? then rest else Success([x] + rest.value)
  }

  /** `done` followed by the outcome of the remaining pieces. */
  function After(done: seq<S2V>, rest: Result<seq<S2V>, nat>): Result<seq<S2V>, nat> {
    if rest.Failure? then rest else Success(done + rest.value)
  }

  /** A rejected piece ends the loop with its index. */
  lemma PiecesRejected(pieces: seq<string>, parse: string -> Option<S2V>, i: nat)
    requires i < |pieces| && parse(pieces[i]).None?
    ensures PiecesFrom(pieces, parse, i) == Failure(i)
  {}

  /** An accepted piece moves from the remaining pieces to the entries. */
  lemma PiecesAccepted(pieces: seq<string>, parse: string -> Option<S2V>, i: nat, done: seq<S2V>, x: S2V)
    requires i < |pieces| && parse(pieces[i]) == Some(x)
    ensures After(done, PiecesFrom(pieces, parse, i)) == After(done + [x], PiecesFrom(pieces, parse, i + 1))
  {
    var rest := PiecesFrom(pieces, parse, i + 1);
    if rest.Success? {
      assert done + ([x] + rest.value) == (done + [x]) + rest.value;
    }
  }

  /** A failure names the first piece that is rejected. */
  lemma {:induction false} PiecesFromFailure(pieces: seq<string>, parse: string -> Option<S2V>, i: nat)
    requires i <= |pieces| && PiecesFrom(pieces, parse, i).Failure?
    ensures var k := PiecesFrom(pieces, parse, i).error;
      && i <= k < |pieces| && parse(pieces[k]).None?
      && forall j :: i <= j < k ==> parse(pieces[j]).Some?
    decreases |pieces| - i
  {
    if parse(pieces[i]).Some? {
      PiecesFromFailure(pieces, parse, i + 1);
    }
  }

  /** A success has one entry per piece, each that piece's parse. */
  lemma {:induction false} PiecesFromSuccess(pieces: seq<string>, parse: string -> Option<S2V>, i: nat)
    requires i <= |pieces| && PiecesFrom(pieces, parse, i).Success?
    ensures var l := PiecesFrom(pieces, parse, i).value;
      && |l| == |pieces| - i
      && forall j :: 0 <= j < |l| ==> parse(pieces[i + j]) == Some(l[j])
    decreases |pieces| - i
  {
    if i < |pieces| {
      var rest := PiecesFrom(pieces, parse, i + 1);
      PiecesFromSuccess(pieces, parse, i + 1);
      var l := PiecesFrom(pieces, parse, i).value;
      forall j | 0 <= j < |l| ensures parse(pieces[i + j]) == Some(l[j]) {
        if j > 0 {
          assert l[j] == rest.value[j - 1];
          assert i + j == (i + 1) + (j - 1);
        }
      }
    }
  }

  /** The two exceptions raised before the loop of `parse`, and the pieces
      and act type it works on otherwise. */
  lemma SplitParts(dact: string, svSep: string, table: SpecialValues, keepValues: bool)
    ensures var parts := Split(dact, "(");
      && (|parts| < 2 ==> ParseSpec(dact, svSep, table, keepValues) == Failure(NoOpenParen))
      && (|parts| >= 2 && svSep == [] ==> ParseSpec(dact, svSep, table, keepValues) == Failure(EmptySvSep))
      && (|parts| >= 2 && svSep != [] ==> Pieces(dact, svSep) == Success(Split(RemoveChar(parts[1], ')'), svSep)))
      && ActType(dact) == parts[0]
  {
  }

  // ---------------------------------------------------------------------
  // Formatting
  // ---------------------------------------------------------------------

  /** Number of `(slot, '_')` entries in `s2v`. */
  function DelexCount(s2v: seq<S2V>, slot: string): nat {
    if s2v == [] then 0
    else DelexCount(s2v[..|s2v| - 1], slot) + (if s2v[|s2v| - 1] == SlotVal(slot, "_") then 1 else 0)
  }

  /** The feature one entry contributes, `earlier` being the number of
      delexicalised entries of the same slot before it: nothing for no slot,
      the pair for a question or a special key, `_k` for the k-th
      delexicalised value of a slot, and nothing for any other (kept)
      value. */
  function Feature(x: S2V, earlier: nat, table: SpecialValues): seq<(string, string)> {
    match x
    case NoSlot => []
    case SlotVal(s, v) =>
      if v == "?" then [(s, v)]
      else if v == "_" then [(s, "_" + Decimal(earlier + 1))]
      else if IsKey(v, table) then [(s, v)]
      else []
  }

  /** The `feature` list built by `format` before sorting. */
  function Features(s2v: seq<S2V>, table: SpecialValues): seq<(string, string)> {
    if s2v == [] then []
    else
      var init := s2v[..|s2v| - 1];
      var x := s2v[|s2v| - 1];
      Features(init, table) + Feature(x, if x.SlotVal? then DelexCount(init, x.slot) else 0, table)
  }

  /** At most one feature per entry. */
  lemma {:induction false} FeaturesBound(s2v: seq<S2V>, table: SpecialValues)
    ensures |Features(s2v, table)| <= |s2v|
  {
    if s2v != [] {
      FeaturesBound(s2v[..|s2v| - 1], table);
    }
  }

  /** A value of the numbered form `_<digits>`. */
  predicate IsDelexLabel(v: string) {
    |v| >= 2 && v[0] == '_' && AllDigits(v[1..])
  }

  /** The numbered labels given to `slot`, in order. */
  function Labels(fs: seq<(string, string)>, slot: string): seq<string> {
    if fs == [] then []
    else
      var f := fs[|fs| - 1];
      Labels(fs[..|fs| - 1], slot) + (if f.0 == slot && IsDelexLabel(f.1) then [f.1] else [])
  }

  lemma {:induction false} LabelsAppend(fs: seq<(string, string)>, gs: seq<(string, string)>, slot: string)
    ensures Labels(fs + gs, slot) == Labels(fs, slot) + Labels(gs, slot)
    decreases |gs|
  {
    if gs == [] {
      assert fs + gs == fs;
    } else {
      assert (fs + gs)[..|fs + gs| - 1] == fs + gs[..|gs| - 1];
      LabelsAppend(fs, gs[..|gs| - 1], slot);
    }
  }

  /** The delexicalised values of one slot are numbered `_1`, `_2`, ... up
      to the number of such entries, in order (provided no special key
      itself looks like such a label). */
  lemma {:induction false} DelexNumbering(s2v: seq<S2V>, table: SpecialValues, slot: string)
    requires forall k :: 0 <= k < |table| ==> !IsDelexLabel(table[k].0)
    ensures Labels(Features(s2v, table), slot)
         == seq(DelexCount(s2v, slot), j requires 0 <= j => "_" + Decimal(j + 1))
  {
    if s2v != [] {
      var init := s2v[..|s2v| - 1];
      var x := s2v[|s2v| - 1];
      var earlier := if x.SlotVal? then DelexCount(init, x.slot) else 0;
      assert Features(s2v, table) == Features(init, table) + Feature(x, earlier, table);
      DelexNumbering(init, table, slot);
      LabelsAppend(Features(init, table), Feature(x, earlier, table), slot);
      LabelsOfFeature(x, earlier, table, slot);
      var n := DelexCount(init, slot);
      if x == SlotVal(slot, "_") {
        assert earlier == n;
        assert DelexCount(s2v, slot) == n + 1;
        NumberedSnoc(n);
      } else {
        assert DelexCount(s2v, slot) == n;
      }
    }
  }

  lemma NumberedSnoc(n: nat)
    ensures seq(n + 1, j requires 0 <= j => "_" + Decimal(j + 1))
         == seq(n, j requires 0 <= j => "_" + Decimal(j + 1)) + ["_" + Decimal(n + 1)]
  {
  }

  lemma LabelsOfFeature(x: S2V, earlier: nat, table: SpecialValues, slot: string)
    requires forall k :: 0 <= k < |table| ==> !IsDelexLabel(table[k].0)
    ensures Labels(Feature(x, earlier, table), slot)
         == if x == SlotVal(slot, "_") then ["_" + Decimal(earlier + 1)] else []
  {
    var fx := Feature(x, earlier, table);
    if fx != [] {
      assert fx == [fx[0]];
      assert Labels(fx, slot) == Labels([], slot) + (if fx[0].0 == slot && IsDelexLabel(fx[0].1) then [fx[0].1] else []);
      var lab := "_" + Decimal(earlier + 1);
      assert lab[1..] == Decimal(earlier + 1);
    }
  }

  /** Hence no two features of one slot share a numbered label. */
  lemma DelexLabelsDistinct(s2v: seq<S2V>, table: SpecialValues, slot: string, i: nat, j: nat)
    requires forall k :: 0 <= k < |table| ==> !IsDelexLabel(table[k].0)
    requires i < j < |Labels(Features(s2v, table), slot)|
    ensures Labels(Features(s2v, table), slot)[i] != Labels(Features(s2v, table), slot)[j]
  {
    DelexNumbering(s2v, table, slot);
    var a := "_" + Decimal(i + 1);
    var b := "_" + Decimal(j + 1);
    if a == b {
      assert a[1..] == Decimal(i + 1) && b[1..] == Decimal(j + 1);
      DecimalInjective(i + 1, j + 1);
    }
  }

  /** One more entry extends the feature list by that entry's feature and
      the counts by that entry alone. */
  lemma FeaturesStep(s2v: seq<S2V>, i: nat, table: SpecialValues)
    requires i < |s2v|
    ensures var x := s2v[i];
      Features(s2v[..i + 1], table)
        == Features(s2v[..i], table) + Feature(x, if x.SlotVal? then DelexCount(s2v[..i], x.slot) else 0, table)
    ensures forall slot ::
      DelexCount(s2v[..i + 1], slot) == DelexCount(s2v[..i], slot) + (if s2v[i] == SlotVal(slot, "_") then 1 else 0)
  {
    assert s2v[..i + 1][..i] == s2v[..i];
  }

  /** What `format` returns once parsing succeeded. */
  function FormatOutput(acttype: string, features: seq<(string, string)>): seq<(string, string)> {
    [("a", acttype)] + Sort(features, PairLe)
  }

  /** The output starts with the act type, and the rest is the feature list
      in tuple order: sorted, a permutation, and the only sorted
      permutation. */
  lemma FormatOutputShape(acttype: string, features: seq<(string, string)>)
    ensures var out := FormatOutput(acttype, features);
      && out[0] == ("a", acttype)
      && |out| == |features| + 1
      && SortedBy(out[1..], PairLe)
      && multiset(out[1..]) == multiset(features)
      && forall t :: SortedBy(t, PairLe) && multiset(t) == multiset(features) ==> t == out[1..]
  {
    var out := FormatOutput(acttype, features);
    assert out[1..] == Sort(features, PairLe);
    PairLeTotalPreorder();
    SortSorted(features, PairLe);
    forall t | SortedBy(t, PairLe) && multiset(t) == multiset(features)
      ensures t == out[1..]
    {
      SortedPermutationUnique(t, out[1..]);
    }
  }

  datatype SoftDActFormatter = SoftDActFormatter(parser: DialogActParser)
  {
    /** `format(dact, keep_values)`. */
    method Format(dact: string, keepValues: bool) returns (r: Result<seq<(string, string)>, ParseError>)
      ensures var p := ParseSpec(dact, parser.svSep, parser.specialValues, keepValues);
        && (p.Failure? ==> r == Failure(p.error))
        && (p.Success? ==>
              r == Success(FormatOutput(p.value.acttype, Features(p.value.s2v, parser.specialValues))))
    {
      var jsact := parser.Parse(dact, keepValues);
      if jsact.Failure? {
        return Failure(jsact.error);
      }
      var feature := CollectFeatures(jsact.value.s2v, parser.specialValues);
      return Success([("a", jsact.value.acttype)] + Sort(feature, PairLe));
    }
  }

  /** The loop of `format`: `mem` counts, per slot, the delexicalised
      values seen so far, plus one. */
  method CollectFeatures(s2v: seq<S2V>, table: SpecialValues) returns (feature: seq<(string, string)>)
    ensures feature == Features(s2v, table)
  {
    var mem: map<string, nat> := map[];
    feature := [];
    var i := 0;
    while i < |s2v|
      invariant 0 <= i <= |s2v|
      invariant feature == Features(s2v[..i], table)
      invariant Counts(mem, s2v[..i])
    {
      FeaturesStep(s2v, i, table);
      var f;
      f, mem := AddFeature(s2v[i], mem, table, s2v[..i]);
      feature := feature + f;
      i := i + 1;
    }
    assert s2v[..|s2v|] == s2v;
  }

  /** `mem` holds one more than the number of delexicalised entries of each
      slot that has any, and no other slot. */
  ghost predicate Counts(mem: map<string, nat>, seen: seq<S2V>) {
    && (forall s :: s in mem ==> mem[s] == DelexCount(seen, s) + 1)
    && (forall s :: s !in mem ==> DelexCount(seen, s) == 0)
  }

  /** The body of the loop of `format` for one entry. */
  method AddFeature(x: S2V, mem: map<string, nat>, table: SpecialValues, ghost seen: seq<S2V>)
    returns (f: seq<(string, string)>, mem': map<string, nat>)
    requires Counts(mem, seen)
    ensures f == Feature(x, if x.SlotVal? then DelexCount(seen, x.slot) else 0, table)
    ensures forall slot :: DelexCount(seen + [x], slot) == DelexCount(seen, slot) + (if x == SlotVal(slot, "_") then 1 else 0)
    ensures Counts(mem', seen + [x])
  {
    assert (seen + [x])[..|seen|] == seen;
    f, mem' := [], mem;
    match x {
      case NoSlot =>
      case SlotVal(s, v) =>
        if v == "?" {
          f := [(s, v)];
        } else if v == "_" {
          if s in mem {
            f := [(s, v + Decimal(mem[s]))];
            mem' := mem[s := mem[s] + 1];
          } else {
            assert Decimal(1) == "1";
            f := [(s, v + "1")];
            mem' := mem[s := 2];
          }
        } else if IsKey(v, table) {
          f := [(s, v)];
        }
    }
  }

  // ---------------------------------------------------------------------
  // The acts given as examples in the source
  // ---------------------------------------------------------------------

  /** `<act>(<slot>)` requests one slot: the act type is `<act>` and the
      slot's name is normalised, with value `?`. */
  lemma RequestOneSlot(act: string, slot: string, table: SpecialValues, keepValues: bool)
    requires '(' !in act && slot != []
    requires '(' !in slot && ')' !in slot && ';' !in slot && '=' !in slot
    ensures ParseSpec(act + "(" + slot + ")", ";", table, keepValues)
         == Success(DAct(act, [SlotVal(StripQuotes(SlotName(slot)), "?")]))
  {
    AbsentChar(act, '(');
    AbsentChar(slot, '(');
    AbsentChar(slot, ';');
    AbsentChar(slot, '=');
    ParseWrittenForm(act, slot, ";", table, keepValues);
    SplitSingle(slot, ";");
    assert Split(slot, ";") == [slot];
    RequestedSlot(slot, table, keepValues);
    ParseSpecSuccess(act + "(" + slot + ")", ";", table, keepValues, [slot], [SlotVal(StripQuotes(SlotName(slot)), "?")]);
  }

  /** `reqmore()` has no slot at all. */
  lemma ReqmoreExample(table: SpecialValues, keepValues: bool)
    ensures ParseSpec("reqmore()", ";", table, keepValues) == Success(DAct("reqmore", [NoSlot]))
  {
    AbsentChar("reqmore", '(');
    assert "reqmore" + "(" + "" + ")" == "reqmore()";
    ParseWrittenForm("reqmore", "", ";", table, keepValues);
    SplitSingle("", ";");
    assert Split("", ";") == [""];
    ParseSpecSuccess("reqmore()", ";", table, keepValues, [""], [NoSlot]);
  }
}
