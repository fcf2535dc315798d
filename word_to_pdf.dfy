/**
 * DOCX to PDF: the list-numbering engine (a re-derivation of Office Open XML
 * list numbering, ECMA-376 Part 1 section 17.9), CJK numerals, the bookmark
 * outline clamp, the story the body walk produces, proportional column widths,
 * table row padding and the upload-name sanitiser.
 *
 * The document object model is abstract: a body is a sequence of paragraphs and
 * tables carrying only what the converter reads from them.
 */
module WordToPdf {
  import opened Wrappers
  import opened Text

  // ===========================================================================
  // CJK numerals

  const CjkDigits: string := "零一二三四五六七八九"
  const CjkTen: char := '十'

  /** int_to_chinese: one CJK digit below 10, 十 and a digit below 20, decimal from 20 on. */
  function IntToChinese(n: nat): (r: string)
    ensures r != []
    ensures IsDigit(r[0]) <==> n >= 20
  {
    if n < 10 then [CjkDigits[n]]
    else if n < 20 then [CjkTen] + (if n % 10 != 0 then [CjkDigits[n % 10]] else "")
    else NatStr(n)
  }

  /** The value of one CJK digit. */
  function CjkDigitValue(c: char): Option<nat> {
    if c == '零' then Some(0) else if c == '一' then Some(1) else if c == '二' then Some(2)
    else if c == '三' then Some(3) else if c == '四' then Some(4) else if c == '五' then Some(5)
    else if c == '六' then Some(6) else if c == '七' then Some(7) else if c == '八' then Some(8)
    else if c == '九' then Some(9) else None
  }

  /** Reads a numeral written by IntToChinese back; an independent reading of the format. */
  function ChineseValue(s: string): Option<nat> {
    if |s| == 1 && CjkDigitValue(s[0]).Some? then CjkDigitValue(s[0])
    else if |s| == 1 && s[0] == CjkTen then Some(10)
    else if |s| == 2 && s[0] == CjkTen && CjkDigitValue(s[1]).Some? then Some(10 + CjkDigitValue(s[1]).value)
    else if s != [] && forall i :: 0 <= i < |s| ==> IsDigit(s[i]) then Some(ParseNat(s))
    else None
  }

  lemma {:induction false} CjkDigitRoundTrip(d: nat)
    requires d < 10
    ensures CjkDigitValue(CjkDigits[d]) == Some(d)
  {
    assert d == 0 || d == 1 || d == 2 || d == 3 || d == 4 || d == 5 || d == 6 || d == 7 || d == 8 || d == 9;
  }

  /** Every counter value gets a numeral that reads back as that value. */
  lemma {:induction false} ChineseRoundTrip(n: nat)
    ensures ChineseValue(IntToChinese(n)) == Some(n)
  {
    if n < 10 {
      CjkDigitRoundTrip(n);
    } else if n < 20 {
      if n % 10 != 0 {
        CjkDigitRoundTrip(n % 10);
      }
    } else {
      var s := NatStr(n);
      ParseNatStr(n);
      assert CjkDigitValue(s[0]).None?;
      assert s[0] != CjkTen;
    }
  }

  // ===========================================================================
  // Numbering definitions (numbering.xml)

  /** An optional XML child element: missing, or present with a payload. */
  datatype Elem<T> = Absent | Present(val: T)

  /**
   * One w:lvl. `ilvl` is int() of its w:ilvl attribute, None when that raises;
   * `numFmt` / `lvlText` are the w:val of the child element (None when the
   * element has no w:val).
   */
  datatype LvlSpec = LvlSpec(ilvl: Option<int>, numFmt: Elem<Option<string>>, lvlText: Elem<Option<string>>)
  datatype AbstractNumSpec = AbstractNumSpec(absId: Option<string>, levels: seq<LvlSpec>)
  datatype NumSpec = NumSpec(numId: Option<string>, absRef: Elem<Option<string>>)
  datatype NumberingPart = NumberingPart(abstractNums: seq<AbstractNumSpec>, nums: seq<NumSpec>)

  /** A level definition: (num_fmt, lvl_text). */
  datatype LevelDef = LevelDef(numFmt: Option<string>, lvlText: Option<string>)

  type AbstractMap = map<Option<string>, map<int, LevelDef>>
  type NumMap = map<Option<string>, Option<string>>

  /** A level's definition, with the defaults "decimal" and "%1." for missing elements. */
  function DefOf(l: LvlSpec): LevelDef {
    LevelDef(if l.numFmt.Absent? then Some("decimal") else l.numFmt.val,
             if l.lvlText.Absent? then Some("%1.") else l.lvlText.val)
  }

  predicate LevelsParse(ls: seq<LvlSpec>) {
    forall i :: 0 <= i < |ls| ==> ls[i].ilvl.Some?
  }

  /** The levels dict of one abstractNum; a later w:lvl with the same ilvl wins. */
  function LevelMap(ls: seq<LvlSpec>): map<int, LevelDef>
    requires LevelsParse(ls)
  {
    if ls == [] then map[]
    else LevelMap(ls[..|ls| - 1])[ls[|ls| - 1].ilvl.value := DefOf(ls[|ls| - 1])]
  }

  /** How many leading abstractNums parse before int() raises on an ilvl. */
  function GoodPrefix(abs: seq<AbstractNumSpec>): (k: nat)
    ensures k <= |abs|
    ensures forall j :: 0 <= j < k ==> LevelsParse(abs[j].levels)
    ensures k < |abs| ==> !LevelsParse(abs[k].levels)
  {
    if abs == [] || !LevelsParse(abs[0].levels) then 0
    else
      var k := 1 + GoodPrefix(abs[1..]);
      assert forall j :: 1 <= j < k ==> abs[j] == abs[1..][j - 1];
      k
  }

  function AbstractsInto(init: AbstractMap, abs: seq<AbstractNumSpec>): AbstractMap
    requires forall j :: 0 <= j < |abs| ==> LevelsParse(abs[j].levels)
  {
    if abs == [] then init
    else AbstractsInto(init, abs[..|abs| - 1])[abs[|abs| - 1].absId := LevelMap(abs[|abs| - 1].levels)]
  }

  function NumsInto(init: NumMap, nums: seq<NumSpec>): NumMap {
    if nums == [] then init
    else
      var m := NumsInto(init, nums[..|nums| - 1]);
      var n := nums[|nums| - 1];
      if n.absRef.Present? then m[n.numId := n.absRef.val] else m
  }

  // ===========================================================================
  // Paragraph numbering

  /** The w:numPr of a paragraph: its w:numId and w:ilvl children. */
  datatype NumPr = NumPr(numId: Elem<Option<string>>, ilvl: Elem<Option<int>>)
  /** A paragraph's text and numbering properties (None when pPr or numPr is missing). */
  datatype Para = Para(text: string, numPr: Option<NumPr>)

  datatype CounterKey = CounterKey(numId: Option<string>, ilvl: int)
  datatype Resolved = Resolved(key: CounterKey, ilvl: int, def: LevelDef)

  function Count(counters: map<CounterKey, nat>, k: CounterKey): nat {
    if k in counters then counters[k] else 0
  }

  /** Python truthiness of an abstract id: present and non-empty. */
  predicate Truthy(id: Option<string>) {
    id.Some? && id.value != ""
  }

  /** The level a paragraph is numbered at, or None when it is not fully resolved. */
  function Resolve(nums: NumMap, abstracts: AbstractMap, p: Para): Option<Resolved> {
    if Strip(p.text) == [] || p.numPr.None? || p.numPr.value.numId.Absent? then None
    else if p.numPr.value.ilvl == Present(None) then None
    else
      var numId := p.numPr.value.numId.val;
      var ilvl := if p.numPr.value.ilvl.Present? then p.numPr.value.ilvl.val.value else 0;
      if numId !in nums || !Truthy(nums[numId]) then None
      else if nums[numId] !in abstracts || ilvl !in abstracts[nums[numId]] then None
      else Some(Resolved(CounterKey(numId, ilvl), ilvl, abstracts[nums[numId]][ilvl]))
  }

  /** The "%{ilvl+1}" placeholder of a level text. */
  function Placeholder(ilvl: int): string {
    "%" + IntStr(ilvl + 1)
  }

  /**
   * The prefix for counter value `val`. A missing format or level text makes the
   * source raise after the counter moved; the exception is swallowed and "" returned.
   */
  function Prefix(def: LevelDef, ilvl: int, val: nat): string {
    match def.numFmt
    case None => ""
    case Some(f) =>
      if f == "bullet" then "• "
      else if def.lvlText.None? then ""
      else if Contains(Lower(f), "chinese") then ReplaceAll(def.lvlText.value, Placeholder(ilvl), IntToChinese(val))
      else ReplaceAll(def.lvlText.value, Placeholder(ilvl), NatStr(val)) + " "
  }

  /** Numbering at a resolved level (or none): the prefix and the new counter table. */
  function Advance(counters: map<CounterKey, nat>, res: Option<Resolved>): (string, map<CounterKey, nat>) {
    match res
    case None => ("", counters)
    case Some(r) =>
      var v := Count(counters, r.key) + 1;
      (Prefix(r.def, r.ilvl, v), counters[r.key := v])
  }

  /** One call of get_numbering_text: the prefix and the new counter table. */
  function NumberingStep(nums: NumMap, abstracts: AbstractMap, counters: map<CounterKey, nat>, p: Para)
    : (string, map<CounterKey, nat>)
  {
    Advance(counters, Resolve(nums, abstracts, p))
  }

  /**
   * A numbered paragraph moves its own counter from k to k + 1 and no other and
   * is given the prefix for k + 1; any other paragraph gets "" and leaves every
   * counter as it was. Counters are never reset.
   */
  lemma {:induction false} AdvanceCounters(counters: map<CounterKey, nat>, res: Option<Resolved>)
    ensures var (prefix, after) := Advance(counters, res);
      match res
      case None => prefix == "" && after == counters
      case Some(r) =>
        && Count(after, r.key) == Count(counters, r.key) + 1
        && (forall k :: k != r.key ==> Count(after, k) == Count(counters, k))
        && prefix == Prefix(r.def, r.ilvl, Count(after, r.key))
  {
  }

  /**
   * The counter value each paragraph of a run is numbered with (0 for one that
   * is not numbered); its prefix is Prefix at that value.
   */
  function Values(counters: map<CounterKey, nat>, rs: seq<Option<Resolved>>): (vs: seq<nat>)
    ensures |vs| == |rs|
    decreases |rs|
  {
    if rs == [] then []
    else
      var after := Advance(counters, rs[0]).1;
      [if rs[0].Some? then Count(after, rs[0].value.key) else 0] + Values(after, rs[1..])
  }

  /**
   * Paragraphs of one list level are numbered with consecutive values: the
   * i-th receives value k + i + 1 where k is the counter before the run.
   */
  lemma {:induction false} ListRun(counters: map<CounterKey, nat>, rs: seq<Option<Resolved>>, r: Resolved)
    requires forall i :: 0 <= i < |rs| ==> rs[i] == Some(r)
    ensures forall i :: 0 <= i < |rs| ==> Values(counters, rs)[i] == Count(counters, r.key) + i + 1
    decreases |rs|
  {
    if rs != [] {
      var c := Count(counters, r.key);
      var after := counters[r.key := c + 1];
      assert Advance(counters, rs[0]).1 == after;
      var tail := rs[1..];
      assert forall i :: 0 <= i < |tail| ==> tail[i] == rs[i + 1];
      ListRun(after, tail, r);
      var all := Values(counters, rs);
      assert all == [c + 1] + Values(after, tail);
      forall i | 0 <= i < |rs| ensures all[i] == c + i + 1 {
        if i > 0 {
          assert all[i] == Values(after, tail)[i - 1];
        }
      }
    }
  }

  /** "%1." at level 0 renders value v as "v. ". */
  lemma {:induction false} DecimalPrefix(v: nat)
    ensures Prefix(LevelDef(Some("decimal"), Some("%1.")), 0, v) == NatStr(v) + ". "
  {
    DecimalNotChinese();
    assert "decimal" != "bullet" by { assert "decimal"[0] != "bullet"[0]; }
    FirstPlaceholder();
    FirstLevelText(NatStr(v));
  }

  lemma {:induction false} FirstPlaceholder()
    ensures Placeholder(0) == "%1"
  {
  }

  lemma {:induction false} FirstLevelText(n: string)
    ensures ReplaceAll("%1.", "%1", n) == n + "."
  {
    var t := "%1.";
    assert t[..2] == "%1" && t[2..] == ".";
    assert ReplaceAll(t[2..], "%1", n) == ".";
  }

  lemma {:induction false} DecimalNotChinese()
    ensures !Contains(Lower("decimal"), "chinese")
  {
    var d := "decimal";
    assert Lower(d) == d by {
      assert forall i :: 0 <= i < |d| ==> LowerChar(d[i]) == d[i];
    }
    assert d[..7] != "chinese" by {
      assert d[0] != 'c';
    }
    ContainsShort(d[1..], "chinese");
  }

  /** A first-level decimal list from a fresh counter reads "1. ", "2. ", "3. ", ... */
  lemma {:induction false} DecimalListRun(counters: map<CounterKey, nat>, rs: seq<Option<Resolved>>, numId: Option<string>)
    requires CounterKey(numId, 0) !in counters
    requires forall i :: 0 <= i < |rs| ==> rs[i] == Some(Resolved(CounterKey(numId, 0), 0, LevelDef(Some("decimal"), Some("%1."))))
    ensures forall i :: 0 <= i < |rs| ==>
      Prefix(LevelDef(Some("decimal"), Some("%1.")), 0, Values(counters, rs)[i]) == NatStr(i + 1) + ". "
  {
    var r := Resolved(CounterKey(numId, 0), 0, LevelDef(Some("decimal"), Some("%1.")));
    ListRun(counters, rs, r);
    forall i | 0 <= i < |rs|
      ensures Prefix(LevelDef(Some("decimal"), Some("%1.")), 0, Values(counters, rs)[i]) == NatStr(i + 1) + ". "
    {
      assert Values(counters, rs)[i] == i + 1;
      DecimalPrefix(i + 1);
    }
  }

  /**
   * The w:lvl loop of one abstractNum: the levels dict, or failure at the first
   * ilvl that does not parse.
   */
  method ParseLevels(lvls: seq<LvlSpec>) returns (ok: bool, levels: map<int, LevelDef>)
    ensures ok == LevelsParse(lvls)
    ensures ok ==> levels == LevelMap(lvls)
  {
    levels := map[];
    var j := 0;
    while j < |lvls|
      invariant 0 <= j <= |lvls|
      invariant LevelsParse(lvls[..j])
      invariant levels == LevelMap(lvls[..j])
    {
      if lvls[j].ilvl.None? {
        return false, levels;
      }
      assert lvls[..j + 1][..j] == lvls[..j];
      levels := levels[lvls[j].ilvl.value := DefOf(lvls[j])];
      j := j + 1;
    }
    assert lvls[..j] == lvls;
    return true, levels;
  }

  /** DocxNumberingEngine: the parsed definitions and the running counters. */
  class NumberingEngine {
    var nums: NumMap
    var abstracts: AbstractMap
    var counters: map<CounterKey, nat>

    /** Builds the engine from the document's numbering part, if it has one. */
    constructor (part: Option<NumberingPart>)
      ensures part.None? ==> nums == map[] && abstracts == map[]
      ensures part.Some? ==>
        var k := GoodPrefix(part.value.abstractNums);
        && abstracts == AbstractsInto(map[], part.value.abstractNums[..k])
        && nums == (if k == |part.value.abstractNums| then NumsInto(map[], part.value.nums) else map[])
      ensures counters == map[]
    {
      nums := map[];
      abstracts := map[];
      counters := map[];
      new;
      ParseNumbering(part);
    }

    /**
     * _parse_numbering_xml: fills the abstract and num dicts. An ilvl that does
     * not parse raises; the whole parse stops there, keeping what was stored.
     */
    method ParseNumbering(part: Option<NumberingPart>)
      modifies this`nums, this`abstracts
      ensures part.None? ==> nums == old(nums) && abstracts == old(abstracts)
      ensures part.Some? ==>
        var k := GoodPrefix(part.value.abstractNums);
        && abstracts == AbstractsInto(old(abstracts), part.value.abstractNums[..k])
        && nums == (if k == |part.value.abstractNums| then NumsInto(old(nums), part.value.nums) else old(nums))
    {
      if part.None? {
        return;
      }
      var abs := part.value.abstractNums;
      var i := 0;
      while i < |abs|
        invariant 0 <= i <= |abs|
        invariant forall j :: 0 <= j < i ==> LevelsParse(abs[j].levels)
        invariant abstracts == AbstractsInto(old(abstracts), abs[..i])
        invariant nums == old(nums)
      {
        var ok, levels := ParseLevels(abs[i].levels);
        if !ok {
          assert GoodPrefix(abs) == i;
          return;
        }
        assert abs[..i + 1][..i] == abs[..i];
        abstracts := abstracts[abs[i].absId := levels];
        i := i + 1;
      }
      assert abs[..i] == abs;
      assert GoodPrefix(abs) == |abs|;
      var ns := part.value.nums;
      var n := 0;
      while n < |ns|
        invariant 0 <= n <= |ns|
        invariant nums == NumsInto(old(nums), ns[..n])
        invariant abstracts == AbstractsInto(old(abstracts), abs)
      {
        assert ns[..n + 1][..n] == ns[..n];
        if ns[n].absRef.Present? {
          nums := nums[ns[n].numId := ns[n].absRef.val];
        }
        n := n + 1;
      }
      assert ns[..n] == ns;
    }

    /** get_numbering_text: the prefix of a paragraph, advancing its counter. */
    method GetNumberingText(p: Para) returns (prefix: string)
      modifies this`counters
      ensures (prefix, counters) == NumberingStep(nums, abstracts, old(counters), p)
    {
      var text := Strip(p.text);
      if text == [] || p.numPr.None? || p.numPr.value.numId.Absent? {
        return "";
      }
      var numId := p.numPr.value.numId.val;
      var ilvl := 0;
      match p.numPr.value.ilvl {
        case Absent =>
        case Present(v) =>
          if v.None? {
            return "";
          }
          ilvl := v.value;
      }
      if numId !in nums || !Truthy(nums[numId]) {
        return "";
      }
      var abstractId := nums[numId];
      if abstractId !in abstracts || ilvl !in abstracts[abstractId] {
        return "";
      }
      var def := abstracts[abstractId][ilvl];
      var key := CounterKey(numId, ilvl);
      // a missing counter starts at 0
      var val := (if key in counters then counters[key] else 0) + 1;
      counters := counters[key := val];
      prefix := Prefix(def, ilvl, val);
      assert Resolve(nums, abstracts, p) == Some(Resolved(key, ilvl, def));
    }
  }

  // ===========================================================================
  // Outline levels

  /** The style-derived outline level of a paragraph style name, if it is a heading. */
  function StyleLevel(styleName: string): Option<nat> {
    var s := Lower(styleName);
    if Contains(s, "heading 1") then Some(0)
    else if Contains(s, "heading 2") then Some(1)
    else if Contains(s, "heading 3") then Some(2)
    else if Contains(s, "title") then Some(0)
    else None
  }

  /** The level a heading is bookmarked at: its style level, but at most one below the previous. */
  function Clamp(last: int, l: nat): (r: nat)
    requires last >= -1
    ensures r <= l && r <= last + 1
    ensures r == l || r == last + 1
  {
    if l > last + 1 then last + 1 else l
  }

  /** last_outline_level after a run of paragraphs (their style levels, None for non-headings). */
  function Tracker(levels: seq<Option<nat>>): (t: int)
    ensures t >= -1
  {
    if levels == [] then -1
    else
      var t := Tracker(levels[..|levels| - 1]);
      match levels[|levels| - 1]
      case None => t
      case Some(l) => Clamp(t, l)
  }

  /** The bookmark level each paragraph is given: min(style level, previous + 1). */
  function Clamped(levels: seq<Option<nat>>): (r: seq<Option<nat>>)
    ensures |r| == |levels|
  {
    if levels == [] then []
    else
      var t := Tracker(levels[..|levels| - 1]);
      Clamped(levels[..|levels| - 1]) + [match levels[|levels| - 1]
                                         case None => None
                                         case Some(l) => Some(Clamp(t, l))]
  }

  /** The heading levels of a run, non-headings dropped. */
  function Headings(levels: seq<Option<nat>>): (r: seq<nat>)
    ensures |r| <= |levels|
  {
    if levels == [] then []
    else Headings(levels[..|levels| - 1]) + (if levels[|levels| - 1].Some? then [levels[|levels| - 1].value] else [])
  }

  /** A bookmark hierarchy a PDF reader accepts: never more than one level deeper than before. */
  predicate ValidOutline(hs: seq<nat>) {
    && (hs == [] || hs[0] == 0)
    && forall i :: 0 < i < |hs| ==> hs[i] <= hs[i - 1] + 1
  }

  function LastOr(hs: seq<nat>, d: int): int {
    if hs == [] then d else hs[|hs| - 1]
  }

  /** The clamp keeps non-headings as they are and never raises a level. */
  lemma {:induction false} ClampedShape(levels: seq<Option<nat>>)
    ensures forall i :: 0 <= i < |levels| ==> (Clamped(levels)[i].Some? <==> levels[i].Some?)
    ensures forall i :: 0 <= i < |levels| && levels[i].Some? ==> Clamped(levels)[i].value <= levels[i].value
  {
    if levels != [] {
      var init := levels[..|levels| - 1];
      ClampedShape(init);
      var cl := Clamped(levels);
      assert cl[..|init|] == Clamped(init);
      forall i | 0 <= i < |init| ensures cl[i] == Clamped(init)[i] && levels[i] == init[i] {
        assert cl[..|init|][i] == cl[i];
      }
    }
  }

  /** The clamped levels form a valid hierarchy, and the tracker is the last heading's assigned level. */
  lemma {:induction false} ClampedOutline(levels: seq<Option<nat>>)
    ensures ValidOutline(Headings(Clamped(levels)))
    ensures Tracker(levels) == LastOr(Headings(Clamped(levels)), -1)
  {
    if levels != [] {
      var init, x := levels[..|levels| - 1], levels[|levels| - 1];
      ClampedOutline(init);
      assert levels == init + [x];
      ClampedSnoc(init, x);
      if x.Some? {
        ValidOutlineSnoc(Headings(Clamped(init)), Clamp(Tracker(init), x.value));
      }
    }
  }

  lemma {:induction false} ValidOutlineSnoc(hs: seq<nat>, h: nat)
    requires ValidOutline(hs)
    requires h <= LastOr(hs, -1) + 1
    ensures ValidOutline(hs + [h])
  {
    var r := hs + [h];
    forall i | 0 < i < |r| ensures r[i] <= r[i - 1] + 1 {
      if i < |hs| {
        assert r[i] == hs[i] && r[i - 1] == hs[i - 1];
      }
    }
  }

  lemma {:induction false} ValidOutlinePrefix(hs: seq<nat>, k: nat)
    requires ValidOutline(hs) && k <= |hs|
    ensures ValidOutline(hs[..k])
  {
    forall i | 0 < i < k ensures hs[..k][i] <= hs[..k][i - 1] + 1 {
      assert hs[..k][i] == hs[i] && hs[..k][i - 1] == hs[i - 1];
    }
  }

  /** A heading that keeps a hierarchy valid is left at its own level by the clamp. */
  lemma {:induction false} ClampValidStep(hs: seq<nat>, l: nat)
    requires ValidOutline(hs + [l])
    ensures Clamp(LastOr(hs, -1), l) == l
  {
    var ext := hs + [l];
    if hs == [] {
      assert ext[0] == l;
    } else {
      assert ext[|hs|] == l && ext[|hs| - 1] == hs[|hs| - 1];
    }
  }

  /** One step of the clamp on a non-empty run, by its last paragraph. */
  lemma {:induction false} ClampedUnfold(init: seq<Option<nat>>, last: Option<nat>)
    ensures Headings(init + [last]) == Headings(init) + (if last.Some? then [last.value] else [])
    ensures Clamped(init + [last]) == Clamped(init) + [if last.Some? then Some(Clamp(Tracker(init), last.value)) else None]
    ensures Tracker(init + [last]) == if last.Some? then Clamp(Tracker(init), last.value) else Tracker(init)
  {
    assert (init + [last])[..|init|] == init;
  }

  /** A hierarchy that is already valid passes through the clamp unchanged. */
  lemma {:induction false} ClampedKeepsValid(levels: seq<Option<nat>>)
    requires ValidOutline(Headings(levels))
    ensures Clamped(levels) == levels
    ensures Tracker(levels) == LastOr(Headings(levels), -1)
  {
    if levels != [] {
      var init, last := levels[..|levels| - 1], levels[|levels| - 1];
      assert levels == init + [last];
      ClampedUnfold(init, last);
      var hs, hi := Headings(levels), Headings(init);
      assert hs[..|hi|] == hi;
      ValidOutlinePrefix(hs, |hi|);
      ClampedKeepsValid(init);
      if last.Some? {
        assert hs == hi + [last.value];
        ClampValidStep(hi, last.value);
      }
    }
  }

  /** Headings at levels 0, 2, 1 are bookmarked at 0, 1, 1. */
  lemma {:induction false} ClampedSkippedLevel()
    ensures Clamped([Some(0), Some(2), Some(1)]) == [Some(0), Some(1), Some(1)]
  {
    var l := [Some(0), Some(2), Some(1)];
    assert l[..2] == [Some(0), Some(2)] && l[..2][..1] == [Some(0)];
  }

  // ===========================================================================
  // Tables and images

  const Cm: real := 7200.0 / 254.0
  /** Width of the page body the table fills: 17 cm. */
  const TableWidth: real := 17.0 * Cm
  /** Widest image: 16 cm. */
  const MaxImageWidth: real := 16.0 * Cm

  function IntSum(ws: seq<int>): int {
    if ws == [] then 0 else ws[0] + IntSum(ws[1..])
  }

  function RealSum(ws: seq<real>): real {
    if ws == [] then 0.0 else ws[0] + RealSum(ws[1..])
  }

  function Proportional(ws: seq<int>, total: int): (r: seq<real>)
    requires total > 0
    ensures |r| == |ws|
  {
    if ws == [] then [] else [(ws[0] as real / total as real) * TableWidth] + Proportional(ws[1..], total)
  }

  /** _get_col_widths: grid widths scaled to 17 cm, or None (reportlab then sizes the columns). */
  function ColWidths(grid: Option<seq<int>>): (r: Option<seq<real>>)
    ensures r.Some? <==> grid.Some? && grid.value != [] && IntSum(grid.value) > 0
    ensures r.Some? ==> |r.value| == |grid.value|
  {
    if grid.Some? && grid.value != [] && IntSum(grid.value) > 0
    then Some(Proportional(grid.value, IntSum(grid.value)))
    else None
  }

  lemma {:induction false} ProportionalSum(ws: seq<int>, total: int)
    requires total > 0
    ensures RealSum(Proportional(ws, total)) == (IntSum(ws) as real / total as real) * TableWidth
  {
    if ws != [] {
      ProportionalSum(ws[1..], total);
      var a, s, t := ws[0] as real, IntSum(ws[1..]) as real, total as real;
      assert (a / t) * TableWidth + (s / t) * TableWidth == ((a + s) / t) * TableWidth;
    }
  }

  lemma {:induction false} ProportionalAt(ws: seq<int>, total: int, i: nat)
    requires total > 0 && i < |ws|
    ensures Proportional(ws, total)[i] == ws[i] as real * (TableWidth / total as real)
  {
    if i > 0 {
      ProportionalAt(ws[1..], total, i - 1);
    }
  }

  /** The column widths fill exactly the 17 cm of the page body. */
  lemma {:induction false} ColWidthsFill(grid: seq<int>)
    requires grid != [] && IntSum(grid) > 0
    ensures RealSum(ColWidths(Some(grid)).value) == TableWidth
  {
    ProportionalSum(grid, IntSum(grid));
  }

  /** Each column gets its grid width's share of the 17 cm. */
  lemma {:induction false} ColWidthsShare(grid: seq<int>, i: nat)
    requires grid != [] && IntSum(grid) > 0
    requires i < |grid|
    ensures ColWidths(Some(grid)).value[i] == grid[i] as real * (TableWidth / IntSum(grid) as real)
  {
    var t := IntSum(grid);
    var r := Proportional(grid, t);
    assert ColWidths(Some(grid)) == Some(r);
    ProportionalAt(grid, t, i);
  }

  /** Any two columns stand in the ratio of their grid widths. */
  lemma {:induction false} ColWidthsRatio(grid: seq<int>, i: nat, j: nat)
    requires grid != [] && IntSum(grid) > 0
    requires i < |grid| && j < |grid|
    ensures ColWidths(Some(grid)).value[i] * grid[j] as real == ColWidths(Some(grid)).value[j] * grid[i] as real
  {
    var k := TableWidth / IntSum(grid) as real;
    ColWidthsShare(grid, i);
    ColWidthsShare(grid, j);
    CrossRatio(grid[i] as real, grid[j] as real, k);
  }

  lemma {:induction false} CrossRatio(a: real, b: real, k: real)
    ensures (a * k) * b == (b * k) * a
  {
  }

  /** A table cell of the PDF: an escaped paragraph, or the "" used as padding. */
  datatype Cell = TextCell(markup: string) | EmptyCell

  /** The cells for a row's texts: each stripped and escaped. */
  function Cells(texts: seq<string>): (r: seq<Cell>)
    ensures |r| == |texts|
  {
    if texts == [] then [] else Cells(texts[..|texts| - 1]) + [TextCell(Escape(Strip(texts[|texts| - 1])))]
  }

  /** The "" cells that pad a short row. */
  function Padding(n: nat): (r: seq<Cell>)
    ensures |r| == n
  {
    if n == 0 then [] else Padding(n - 1) + [EmptyCell]
  }

  /** The row _convert_to_pdf builds from a row's cell texts for a table of `columns` columns. */
  function RowOf(texts: seq<string>, columns: nat): seq<Cell> {
    Cells(texts) + (if |texts| < columns then Padding(columns - |texts|) else [])
  }

  /**
   * A row is as wide as the table (or its own cell count when that is larger);
   * its leading cells hold the stripped, escaped texts of its source cells in
   * order, and the rest are empty.
   */
  lemma {:induction false} RowShape(texts: seq<string>, columns: nat)
    ensures |RowOf(texts, columns)| == if |texts| < columns then columns else |texts|
    ensures forall j :: 0 <= j < |texts| ==> RowOf(texts, columns)[j] == TextCell(Escape(Strip(texts[j])))
    ensures forall j :: |texts| <= j < |RowOf(texts, columns)| ==> RowOf(texts, columns)[j] == EmptyCell
  {
    var cells := Cells(texts);
    var pad := if |texts| < columns then Padding(columns - |texts|) else [];
    var row := RowOf(texts, columns);
    assert row == cells + pad;
    forall j | 0 <= j < |texts| ensures row[j] == TextCell(Escape(Strip(texts[j]))) {
      assert row[j] == cells[j];
      CellsAt(texts, j);
    }
    forall j | |texts| <= j < |row| ensures row[j] == EmptyCell {
      assert row[j] == pad[j - |texts|];
      PaddingAt(columns - |texts|, j - |texts|);
    }
  }

  lemma {:induction false} CellsAt(texts: seq<string>, j: nat)
    requires j < |texts|
    ensures Cells(texts)[j] == TextCell(Escape(Strip(texts[j])))
  {
    if j < |texts| - 1 {
      CellsAt(texts[..|texts| - 1], j);
    }
  }

  lemma {:induction false} PaddingAt(n: nat, j: nat)
    requires j < n
    ensures Padding(n)[j] == EmptyCell
  {
    if j < n - 1 {
      PaddingAt(n - 1, j);
    }
  }

  /** One table row: the cell loop, then the padding loop. */
  method TableRow(texts: seq<string>, columns: nat) returns (row: seq<Cell>)
    ensures row == RowOf(texts, columns)
  {
    row := [];
    for j := 0 to |texts|
      invariant row == Cells(texts[..j])
    {
      assert texts[..j + 1][..j] == texts[..j];
      row := row + [TextCell(Escape(Strip(texts[j])))];
    }
    assert texts[..|texts|] == texts;
    ghost var n: nat := 0;
    while |row| < columns
      invariant |row| == |texts| + n
      invariant n == 0 || |row| <= columns
      invariant row == Cells(texts) + Padding(n)
    {
      row := row + [EmptyCell];
      n := n + 1;
    }
    assert n == (if |texts| < columns then columns - |texts| else 0);
  }

  /** An image scaled down to 16 cm wide when it is wider, keeping its aspect ratio. */
  function FitImage(w: real, h: real): (r: (real, real))
    ensures r.0 <= MaxImageWidth && r.0 <= w
    ensures r.0 * h == r.1 * w
    ensures w <= MaxImageWidth ==> r == (w, h)
  {
    if w > MaxImageWidth then (MaxImageWidth, h * (MaxImageWidth / w)) else (w, h)
  }

  // ===========================================================================
  // The body walk

  /** A body paragraph: its text and numbering, style name, alignment and images. */
  datatype DocPara = DocPara(para: Para, styleName: string, alignment: Option<int>, images: seq<Option<ImageSize>>)
  /** An embedded image's size; None when its relationship is missing or it does not load. */
  datatype ImageSize = ImageSize(w: real, h: real)
  /** A body table: its grid column count, rows of cell texts and w:gridCol widths. */
  datatype DocTable = DocTable(columns: nat, rows: seq<seq<string>>, grid: Option<seq<int>>)
  datatype BodyChild = ParaChild(p: DocPara) | TableChild(t: DocTable) | OtherChild

  datatype ParaStyle = Normal | H1 | H2 | H3
  datatype Align = Justify | Center | Right

  datatype Flowable =
    | Picture(w: real, h: real)
    | Bookmark(markup: string, style: ParaStyle, level: nat)
    | Text(markup: string, style: ParaStyle, align: Align)
    | TableFlow(rows: seq<seq<Cell>>, colWidths: Option<seq<real>>)
    | Spacer(height: real)

  function StyleOf(level: nat): ParaStyle {
    if level == 0 then H1 else if level == 1 then H2 else H3
  }

  /** The outline level a body child asks for: kept heading paragraphs only. */
  function ChildLevel(c: BodyChild): Option<nat> {
    if c.ParaChild? && Strip(c.p.para.text) != [] then StyleLevel(c.p.styleName) else None
  }

  function ChildLevels(body: seq<BodyChild>): (r: seq<Option<nat>>)
    ensures |r| == |body|
  {
    if body == [] then [] else ChildLevels(body[..|body| - 1]) + [ChildLevel(body[|body| - 1])]
  }

  function Pictures(images: seq<Option<ImageSize>>): seq<Flowable> {
    if images == [] then []
    else
      var rest := Pictures(images[1..]);
      match images[0]
      case Some(im) => [Picture(FitImage(im.w, im.h).0, FitImage(im.w, im.h).1)] + rest
      case None => rest
  }

  /** The state of the body walk: story so far, last outline level, numbering counters. */
  datatype Walk = Walk(story: seq<Flowable>, last: int, counters: map<CounterKey, nat>)

  /** One paragraph of the body: its images, then (when it has text) its numbered, escaped text. */
  function ParaStep(nums: NumMap, abstracts: AbstractMap, w: Walk, d: DocPara): (r: Walk)
    requires w.last >= -1
    ensures r.last >= -1
  {
    var text := Strip(d.para.text);
    var pics := Pictures(d.images);
    if text == [] then Walk(w.story + pics, w.last, w.counters)
    else
      var (prefix, counters) := NumberingStep(nums, abstracts, w.counters, d.para);
      var markup := Escape(prefix + text);
      match StyleLevel(d.styleName)
      case Some(l) =>
        var level := Clamp(w.last, l);
        Walk(w.story + pics + [Bookmark(markup, StyleOf(l), level)], level, counters)
      case None =>
        var align := if d.alignment == Some(1) then Center else if d.alignment == Some(2) then Right else Justify;
        Walk(w.story + pics + [Text(markup, Normal, align)], w.last, counters)
  }

  /** The flowables of one table: its padded rows and a 12-point spacer, or nothing without columns or rows. */
  function TableFlows(t: DocTable): seq<Flowable> {
    if t.columns == 0 || t.rows == [] then []
    else [TableFlow(seq(|t.rows|, i requires 0 <= i < |t.rows| => RowOf(t.rows[i], t.columns)), ColWidths(t.grid)), Spacer(12.0)]
  }

  function TableStep(w: Walk, t: DocTable): Walk {
    Walk(w.story + TableFlows(t), w.last, w.counters)
  }

  /** The walk over the body children, in document order. */
  function WalkBody(nums: NumMap, abstracts: AbstractMap, counters: map<CounterKey, nat>, body: seq<BodyChild>): (w: Walk)
    ensures w.last >= -1
  {
    if body == [] then Walk([], -1, counters)
    else
      ChildStep(nums, abstracts, WalkBody(nums, abstracts, counters, body[..|body| - 1]), body[|body| - 1])
  }

  /** One body child: a paragraph, a table, or anything else (skipped). */
  function ChildStep(nums: NumMap, abstracts: AbstractMap, w: Walk, c: BodyChild): (r: Walk)
    requires w.last >= -1
    ensures r.last >= -1
  {
    match c
    case ParaChild(d) => ParaStep(nums, abstracts, w, d)
    case TableChild(t) => TableStep(w, t)
    case OtherChild => w
  }

  function BookmarkLevels(story: seq<Flowable>): seq<nat> {
    if story == [] then []
    else BookmarkLevels(story[..|story| - 1])
         + (if story[|story| - 1].Bookmark? then [story[|story| - 1].level] else [])
  }

  lemma {:induction false} BookmarkLevelsAppend(a: seq<Flowable>, b: seq<Flowable>)
    ensures BookmarkLevels(a + b) == BookmarkLevels(a) + BookmarkLevels(b)
    decreases |b|
  {
    if b == [] {
      assert a + b == a;
    } else {
      assert (a + b)[..|a + b| - 1] == a + b[..|b| - 1];
      BookmarkLevelsAppend(a, b[..|b| - 1]);
    }
  }

  lemma {:induction false} NoBookmarks(xs: seq<Flowable>)
    requires forall i :: 0 <= i < |xs| ==> !xs[i].Bookmark?
    ensures BookmarkLevels(xs) == []
  {
    if xs != [] {
      NoBookmarks(xs[..|xs| - 1]);
    }
  }

  lemma {:induction false} PicturesNoBookmarks(images: seq<Option<ImageSize>>)
    ensures BookmarkLevels(Pictures(images)) == []
  {
    if images != [] {
      PicturesNoBookmarks(images[1..]);
      var rest := Pictures(images[1..]);
      if images[0].Some? {
        BookmarkLevelsAppend([Pictures(images)[0]], rest);
        assert BookmarkLevels([Pictures(images)[0]]) == BookmarkLevels([]) + [];
      }
    }
  }

  /** A paragraph adds a bookmark exactly when it is a kept heading, at the clamped level. */
  lemma {:induction false} ParaStepOutline(nums: NumMap, abstracts: AbstractMap, w: Walk, d: DocPara)
    requires w.last >= -1
    ensures var s := ParaStep(nums, abstracts, w, d);
      match ChildLevel(ParaChild(d))
      case None => BookmarkLevels(s.story) == BookmarkLevels(w.story) && s.last == w.last
      case Some(l) => BookmarkLevels(s.story) == BookmarkLevels(w.story) + [Clamp(w.last, l)] && s.last == Clamp(w.last, l)
  {
    var s := ParaStep(nums, abstracts, w, d);
    var text := Strip(d.para.text);
    var pics := Pictures(d.images);
    PicturesNoBookmarks(d.images);
    BookmarkLevelsAppend(w.story, pics);
    assert BookmarkLevels(w.story + pics) == BookmarkLevels(w.story);
    if text != [] {
      var markup := Escape(NumberingStep(nums, abstracts, w.counters, d.para).0 + text);
      var level := StyleLevel(d.styleName);
      assert ChildLevel(ParaChild(d)) == level;
      if level.Some? {
        var x := Bookmark(markup, StyleOf(level.value), Clamp(w.last, level.value));
        assert s.story == (w.story + pics) + [x];
        BookmarkLevelsSnoc(w.story + pics, x);
      } else {
        var x := s.story[|s.story| - 1];
        assert s.story == (w.story + pics) + [x] && !x.Bookmark?;
        BookmarkLevelsSnoc(w.story + pics, x);
      }
    }
  }

  lemma {:induction false} BookmarkLevelsSnoc(xs: seq<Flowable>, x: Flowable)
    ensures BookmarkLevels(xs + [x]) == BookmarkLevels(xs) + (if x.Bookmark? then [x.level] else [])
  {
    assert (xs + [x])[..|xs|] == xs;
  }

  /** A table adds no bookmark and leaves the outline tracker alone. */
  lemma {:induction false} TableStepOutline(w: Walk, t: DocTable)
    ensures BookmarkLevels(TableStep(w, t).story) == BookmarkLevels(w.story)
    ensures TableStep(w, t).last == w.last
  {
    var tail := TableFlows(t);
    BookmarkLevelsAppend(w.story, tail);
    NoBookmarks(tail);
  }

  /**
   * The bookmarks of the story carry exactly the clamped outline levels of the
   * heading paragraphs, in order, and the tracker ends at the last of them.
   */
  lemma {:induction false} StoryOutline(nums: NumMap, abstracts: AbstractMap, counters: map<CounterKey, nat>, body: seq<BodyChild>)
    ensures BookmarkLevels(WalkBody(nums, abstracts, counters, body).story) == Headings(Clamped(ChildLevels(body)))
    ensures WalkBody(nums, abstracts, counters, body).last == Tracker(ChildLevels(body))
  {
    if body != [] {
      StoryOutline(nums, abstracts, counters, body[..|body| - 1]);
      StoryOutlineStep(nums, abstracts, counters, body);
    }
  }

  lemma {:induction false} StoryOutlineStep(nums: NumMap, abstracts: AbstractMap, counters: map<CounterKey, nat>, body: seq<BodyChild>)
    requires body != []
    requires var w := WalkBody(nums, abstracts, counters, body[..|body| - 1]);
      && BookmarkLevels(w.story) == Headings(Clamped(ChildLevels(body[..|body| - 1])))
      && w.last == Tracker(ChildLevels(body[..|body| - 1]))
    ensures BookmarkLevels(WalkBody(nums, abstracts, counters, body).story) == Headings(Clamped(ChildLevels(body)))
    ensures WalkBody(nums, abstracts, counters, body).last == Tracker(ChildLevels(body))
  {
    var init, c := body[..|body| - 1], body[|body| - 1];
    assert ChildLevels(body) == ChildLevels(init) + [ChildLevel(c)];
    ClampedSnoc(ChildLevels(init), ChildLevel(c));
    var w := WalkBody(nums, abstracts, counters, init);
    assert WalkBody(nums, abstracts, counters, body) == ChildStep(nums, abstracts, w, c);
    ChildStepOutline(nums, abstracts, w, c);
  }

  /** How one body child moves the bookmarks and the tracker. */
  lemma {:induction false} ChildStepOutline(nums: NumMap, abstracts: AbstractMap, w: Walk, c: BodyChild)
    requires w.last >= -1
    ensures var s := ChildStep(nums, abstracts, w, c);
      match ChildLevel(c)
      case None => BookmarkLevels(s.story) == BookmarkLevels(w.story) && s.last == w.last
      case Some(l) => BookmarkLevels(s.story) == BookmarkLevels(w.story) + [Clamp(w.last, l)] && s.last == Clamp(w.last, l)
  {
    match c {
      case ParaChild(d) =>
        ParaStepOutline(nums, abstracts, w, d);
      case TableChild(tb) =>
        TableStepOutline(w, tb);
      case OtherChild =>
    }
  }

  /** Extending a run by one paragraph extends its bookmarks by that paragraph's clamped level, if any. */
  lemma {:induction false} ClampedSnoc(levels: seq<Option<nat>>, x: Option<nat>)
    ensures Headings(Clamped(levels + [x]))
      == Headings(Clamped(levels)) + (if x.Some? then [Clamp(Tracker(levels), x.value)] else [])
    ensures Tracker(levels + [x]) == if x.Some? then Clamp(Tracker(levels), x.value) else Tracker(levels)
  {
    var all := levels + [x];
    assert all[..|levels|] == levels;
    var cl := Clamped(all);
    assert cl == Clamped(levels) + [if x.Some? then Some(Clamp(Tracker(levels), x.value)) else None];
    assert cl[..|levels|] == Clamped(levels);
  }

  /** The PDF outline never skips a level. */
  lemma {:induction false} StoryOutlineValid(nums: NumMap, abstracts: AbstractMap, counters: map<CounterKey, nat>, body: seq<BodyChild>)
    ensures ValidOutline(BookmarkLevels(WalkBody(nums, abstracts, counters, body).story))
  {
    StoryOutline(nums, abstracts, counters, body);
    ClampedOutline(ChildLevels(body));
  }

  /**
   * The body loop of _convert_to_pdf: every paragraph and table of the body in
   * order, numbering through the engine and clamping bookmark levels.
   */
  method BuildStory(engine: NumberingEngine, body: seq<BodyChild>) returns (story: seq<Flowable>)
    modifies engine`counters
    ensures var w := WalkBody(engine.nums, engine.abstracts, old(engine.counters), body);
      story == w.story && engine.counters == w.counters
  {
    story := [];
    var lastOutlineLevel := -1;
    ghost var c0 := engine.counters;
    for i := 0 to |body|
      invariant WalkBody(engine.nums, engine.abstracts, c0, body[..i]) == Walk(story, lastOutlineLevel, engine.counters)
    {
      assert body[..i + 1][..i] == body[..i];
      match body[i] {
        case ParaChild(d) =>
          story, lastOutlineLevel := AddParagraph(engine, story, lastOutlineLevel, d);
        case TableChild(t) =>
          var flows := TableFlowsOf(t);
          story := story + flows;
        case OtherChild =>
      }
    }
    assert body[..|body|] == body;
  }

  /** One paragraph of the body loop. */
  method AddParagraph(engine: NumberingEngine, story: seq<Flowable>, last: int, d: DocPara)
    returns (story': seq<Flowable>, last': int)
    requires last >= -1
    modifies engine`counters
    ensures Walk(story', last', engine.counters)
      == ParaStep(engine.nums, engine.abstracts, Walk(story, last, old(engine.counters)), d)
  {
    var pics := PicturesOf(d.images);
    story', last' := story + pics, last;
    var text := Strip(d.para.text);
    if text == [] {
      return;
    }
    var prefix := engine.GetNumberingText(d.para);
    var markup := Escape(prefix + text);
    var styleLevel := StyleLevel(d.styleName);
    if styleLevel.Some? {
      var level: nat := styleLevel.value;
      if level > last + 1 {
        level := last + 1;
      }
      last' := level;
      story' := story' + [Bookmark(markup, StyleOf(styleLevel.value), level)];
    } else {
      var align := if d.alignment == Some(1) then Center else if d.alignment == Some(2) then Right else Justify;
      story' := story' + [Text(markup, Normal, align)];
    }
  }

  /** The table branch of the body loop: each row padded by TableRow. */
  method TableFlowsOf(t: DocTable) returns (flows: seq<Flowable>)
    ensures flows == TableFlows(t)
  {
    if t.columns == 0 || t.rows == [] {
      return [];
    }
    var rows: seq<seq<Cell>> := [];
    for r := 0 to |t.rows|
      invariant |rows| == r
      invariant forall k :: 0 <= k < r ==> rows[k] == RowOf(t.rows[k], t.columns)
    {
      var row := TableRow(t.rows[r], t.columns);
      rows := rows + [row];
    }
    assert rows == seq(|t.rows|, i requires 0 <= i < |t.rows| => RowOf(t.rows[i], t.columns));
    flows := [TableFlow(rows, ColWidths(t.grid)), Spacer(12.0)];
  }

  /** The images of one paragraph, in order, scaled to fit. */
  method PicturesOf(images: seq<Option<ImageSize>>) returns (pics: seq<Flowable>)
    ensures pics == Pictures(images)
  {
    pics := [];
    var i := |images|;
    while i > 0
      invariant 0 <= i <= |images|
      invariant pics == Pictures(images[i..])
    {
      i := i - 1;
      assert images[i..][1..] == images[i + 1..];
      match images[i] {
        case Some(im) =>
          var fit := FitImage(im.w, im.h);
          pics := [Picture(fit.0, fit.1)] + pics;
        case None =>
      }
    }
  }

  // ===========================================================================
  // Upload handling

  const ForbiddenInName: set<char> := {'\\', '/', '*', '?', ':', '"', '<', '>', '|'}

  /**
   * The _invoke gate. The upload is given as None when no file was passed,
   * otherwise as its extension, itself None when the file has none. A missing
   * file is refused; a missing extension makes `.lower()` raise outside any
   * handler, given as None; otherwise the lower-cased extension must end in
   * ".docx".
   */
  function CheckUpload(file: Option<Option<string>>): (r: Option<bool>)
    ensures r.None? <==> file.Some? && file.value.None?
    ensures r == Some(true) <==> file.Some? && file.value.Some? && EndsWith(Lower(file.value.value), ".docx")
  {
    if file.None? then Some(false)
    else if file.value.None? then None
    else Some(EndsWith(Lower(file.value.value), ".docx"))
  }

  /** The gate ignores the case of the extension: ".DOCX" passes like ".docx", and ".doc" is refused. */
  lemma {:induction false} CheckUploadCase()
    ensures CheckUpload(Some(Some(".DOCX"))) == Some(true)
    ensures CheckUpload(Some(Some(".doc"))) == Some(false)
    ensures CheckUpload(None) == Some(false)
  {
    assert Lower(".DOCX") == ".docx";
  }

  predicate NameSafe(s: string) {
    forall i :: 0 <= i < |s| ==> s[i] !in ForbiddenInName
  }

  /** The saved input name: forbidden characters removed, a default for short names, ".docx" ensured. */
  function SafeName(filename: string): (r: string)
    ensures NameSafe(r)
    ensures |r| >= 2
    ensures EndsWith(Lower(r), ".docx")
    ensures var c := RemoveAll(filename, ForbiddenInName);
      if |c| < 2 then r == "document.docx"
      else r == c || (r == c + ".docx" && !EndsWith(Lower(c), ".docx"))
  {
    var cleaned := RemoveAll(filename, ForbiddenInName);
    var s := if |cleaned| < 2 then "document.docx" else cleaned;
    DocxSafe();
    DefaultDocx();
    if EndsWith(Lower(s), ".docx") then s
    else
      DocxAppended(s);
      s + ".docx"
  }

  lemma {:induction false} DocxSafe()
    ensures NameSafe(".docx") && NameSafe("document.docx")
  {
    assert "document.docx" == "document" + ".docx";
  }

  /** The default name already ends in ".docx". */
  lemma {:induction false} DefaultDocx()
    ensures EndsWith(Lower("document.docx"), ".docx")
  {
    var s := "document";
    assert NameSafe(s);
    DocxSafe();
    DocxAppended(s);
    assert s + ".docx" == "document.docx";
  }

  /** Appending ".docx" keeps a safe name safe and makes its lower-cased form end in ".docx". */
  lemma {:induction false} DocxAppended(s: string)
    requires NameSafe(s) && NameSafe(".docx")
    ensures NameSafe(s + ".docx")
    ensures EndsWith(Lower(s + ".docx"), ".docx")
  {
    LowerAppend(s, ".docx");
    var l := Lower(s + ".docx");
    assert l[|l| - 5..] == Lower(".docx");
    assert Lower(".docx") == ".docx";
  }

  /** Sanitising a sanitised name changes nothing. */
  lemma {:induction false} SafeNameIdempotent(filename: string)
    ensures SafeName(SafeName(filename)) == SafeName(filename)
  {
    RemoveAllAbsent(SafeName(filename), ForbiddenInName);
  }

  /**
   * The name of the PDF sent back: it ends in ".pdf", and putting the
   * sanitised upload's own extension back in place of ".pdf" gives the
   * sanitised upload name.
   */
  function OutputName(filename: string): (r: string)
    ensures EndsWith(r, ".pdf")
    ensures r[..|r| - 4] + Ext(SafeName(filename)) == SafeName(filename)
    ensures NameSafe(r)
  {
    var safe := SafeName(filename);
    PdfNameSafe(safe, ExtIndex(safe));
    var r := Stem(safe) + ".pdf";
    assert r[|r| - 4..] == ".pdf";
    assert r[..|r| - 4] == Stem(safe);
    SplitExtShape(safe);
    r
  }

  /** A prefix of a safe name followed by ".pdf" is safe. */
  lemma {:induction false} PdfNameSafe(safe: string, n: nat)
    requires NameSafe(safe) && n <= |safe|
    ensures NameSafe(safe[..n] + ".pdf")
  {
    var r := safe[..n] + ".pdf";
    forall i | 0 <= i < |r| ensures r[i] !in ForbiddenInName {
      if i < n {
        assert r[i] == safe[i];
      }
    }
  }
}
