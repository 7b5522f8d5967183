/**
  The three records of the work log — Worker, WorkType and WorkEntry — with
  the field limits their columns impose and their display texts (`__str__`).
 */
module Models {
  import opened Wrappers
  import opened Text
  import opened Dates

  /** Quantities are decimal(12, 3), held as integer thousandths: at most
      9 digits before the point and 3 after it. */
  const QuantityScale := 1000
  const QuantityLimit := 1_000_000_000_000
  /** Default rates are decimal(10, 2), held as integer hundredths. */
  const RateLimit := 10_000_000_000
  /** The unit a work type gets when none is given. */
  const DefaultUnit := "шт"

  datatype Worker = Worker(
    pk: nat,
    telegramId: int,
    fullName: string,
    username: Option<string>,
    isActive: bool)

  datatype WorkType = WorkType(
    pk: nat,
    code: string,
    name: string,
    unit: string,
    isActive: bool,
    defaultRate: int)

  datatype WorkEntry = WorkEntry(
    pk: nat,
    worker: nat,
    workType: nat,
    workDate: Day,
    quantity: int,
    comment: Option<string>,
    sourceChatId: Option<int>,
    sourceMessageId: Option<int>)

  predicate QuantityFits(q: int) {
    0 <= q < QuantityLimit
  }

  predicate RateFits(r: int) {
    0 <= r < RateLimit
  }

  /** `a` followed by ` `, the opening bracket, `t` and the closing bracket. */
  function Bracketed(a: string, open: char, t: string, close: char): string {
    a + [' ', open] + t + [close]
  }

  /** When the bracketed part cannot hold an opening bracket, the text splits back
      into its two parts: the last opening bracket starts the bracketed part. */
  lemma BracketedSplits(a1: string, t1: string, a2: string, t2: string, open: char, close: char)
    requires open !in t1 && open !in t2
    requires Bracketed(a1, open, t1, close) == Bracketed(a2, open, t2, close)
    ensures a1 == a2 && t1 == t2
  {
    var s := Bracketed(a1, open, t1, close);
    if |t1| < |t2| {
      OpenInsideLonger(a1, t1, a2, t2, open, close);
      assert false;
    } else if |t2| < |t1| {
      OpenInsideLonger(a2, t2, a1, t1, open, close);
      assert false;
    }
    assert a1 == s[..|a1|] == a2;
    assert t1 == s[|a1| + 2..|s| - 1] == t2;
  }

  /** Were the shorter bracketed part's opening bracket to fall inside the longer
      bracketed part, that part would hold an opening bracket. */
  lemma OpenInsideLonger(a1: string, t1: string, a2: string, t2: string, open: char, close: char)
    requires |t1| < |t2|
    requires Bracketed(a1, open, t1, close) == Bracketed(a2, open, t2, close)
    ensures open in t2
  {
    var s := Bracketed(a1, open, t1, close);
    var k := |a1| + 1 - |a2| - 2;
    assert s[|a1| + 1] == open;
    assert s[|a1| + 1] == t2[k];
  }

  /** `Worker.__str__`: the full name, or `#<pk>` when the name is empty,
      followed by the Telegram id in square brackets. */
  function WorkerText(w: Worker): string
  {
    var base := if w.fullName != "" then w.fullName else "#" + NatText(w.pk);
    Bracketed(base, '[', IntText(w.telegramId), ']')
  }

  lemma IntTextHasNoBracket(i: int)
    ensures '[' !in IntText(i)
  {
    if '[' in IntText(i) {
      assert false;
    }
  }

  /** The display text of a worker determines its Telegram id, so workers with
      distinct Telegram ids never display alike. */
  lemma WorkerTextDeterminesTelegramId(v: Worker, w: Worker)
    requires WorkerText(v) == WorkerText(w)
    ensures v.telegramId == w.telegramId
  {
    IntTextHasNoBracket(v.telegramId);
    IntTextHasNoBracket(w.telegramId);
    var bv := if v.fullName != "" then v.fullName else "#" + NatText(v.pk);
    var bw := if w.fullName != "" then w.fullName else "#" + NatText(w.pk);
    BracketedSplits(bv, IntText(v.telegramId), bw, IntText(w.telegramId), '[', ']');
    IntTextInjective(v.telegramId, w.telegramId);
  }

  /** A worker with an empty name is shown by primary key: `#<pk> [<telegram id>]`. */
  lemma UnnamedWorkerText(w: Worker)
    requires w.fullName == ""
    ensures WorkerText(w)[0] == '#'
    ensures WorkerText(w)[1..|NatText(w.pk)| + 1] == NatText(w.pk)
  {
  }

  /** `name (unit)`: the display text of a work type and the label of its
      row in the analytics by-type series. */
  function TypeLabel(name: string, unit: string): string
  {
    Bracketed(name, '(', unit, ')')
  }

  /** `WorkType.__str__`. */
  function WorkTypeText(t: WorkType): string
  {
    TypeLabel(t.name, t.unit)
  }

  /** Labels are unambiguous as long as units hold no opening parenthesis. */
  lemma TypeLabelInjective(name1: string, unit1: string, name2: string, unit2: string)
    requires '(' !in unit1 && '(' !in unit2
    requires TypeLabel(name1, unit1) == TypeLabel(name2, unit2)
    ensures name1 == name2 && unit1 == unit2
  {
    BracketedSplits(name1, unit1, name2, unit2, '(', ')');
  }

  /** Without that condition two different (name, unit) pairs can share a label. */
  lemma TypeLabelsCanCollide()
    ensures TypeLabel("a", "b (c") == TypeLabel("a (b", "c")
  {
  }

  /** `str(quantity)` of a decimal(12, 3) value: the whole part, a point and three decimals. */
  function QuantityText(q: nat): string
  {
    NatText(q / QuantityScale) + "." + Padded(q % QuantityScale, 3)
  }

  /** The thousandths a quantity text denotes. */
  function ReadQuantity(s: string): int
  {
    if |s| >= 5 && s[|s| - 4] == '.' && AllDigits(s[..|s| - 4]) && AllDigits(s[|s| - 3..])
    then ReadDigits(s[..|s| - 4]) * QuantityScale + ReadDigits(s[|s| - 3..])
    else -1
  }

  /** A displayed quantity reads back as the quantity itself. */
  lemma ReadQuantityText(q: nat)
    ensures ReadQuantity(QuantityText(q)) == q
  {
    var s := QuantityText(q);
    assert s[..|s| - 4] == NatText(q / QuantityScale);
    assert s[|s| - 3..] == Padded(q % QuantityScale, 3);
    ReadNatText(q / QuantityScale);
    ReadPadded(q % QuantityScale, 3);
  }

  /** `WorkEntry.__str__`: `<date> · <worker> · <work type> = <quantity> <unit>`. */
  function EntryText(e: WorkEntry, w: Worker, t: WorkType): string
    requires w.pk == e.worker && t.pk == e.workType && e.quantity >= 0
  {
    var middle := " · " + WorkerText(w) + " · " + WorkTypeText(t) + " = ";
    IsoFormat(e.workDate) + middle + (QuantityText(e.quantity) + " " + t.unit)
  }

  /** An entry's text opens with its date in ISO form and closes with its quantity and unit. */
  lemma EntryTextParts(e: WorkEntry, w: Worker, t: WorkType)
    requires w.pk == e.worker && t.pk == e.workType && e.quantity >= 0
    ensures ParseCalendarDate(EntryText(e, w, t)[..10]) == Some(e.workDate)
    ensures var s := EntryText(e, w, t);
            var tail := QuantityText(e.quantity) + " " + t.unit;
            |tail| <= |s| && s[|s| - |tail|..] == tail
  {
    var date := IsoFormat(e.workDate);
    var middle := " · " + WorkerText(w) + " · " + WorkTypeText(t) + " = ";
    var tail := QuantityText(e.quantity) + " " + t.unit;
    ParseIsoFormat(e.workDate);
    PrefixAndSuffix(date, middle, tail);
  }

  lemma PrefixAndSuffix(a: string, b: string, c: string)
    ensures (a + b + c)[..|a|] == a
    ensures (a + b + c)[|a + b|..] == c
  {
  }
}
