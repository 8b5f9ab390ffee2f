/**
  The text key a series is cached under, and the proof that two references share
  a key only if they ask for the same series. How a number prints is a parameter.
 */
module IndicatorKeys {
  import opened IndicatorCatalog
  import opened Indicators
  import opened Outcome

  type NumberText = real -> string

  function Print(show: NumberText, x: real): string {
    show(x)
  }

  /** These numbers print differently when they differ, and without the key's separators. */
  ghost predicate Prints(show: NumberText, numbers: set<real>) {
    && (forall a, b :: a in numbers && b in numbers && Print(show, a) == Print(show, b) ==> a == b)
    && (forall a :: a in numbers ==> ':' !in Print(show, a) && '|' !in Print(show, a))
  }

  /** Different naturals for the elements of a set. */
  lemma {:induction false} Numbering<T>(elements: set<T>) returns (index: map<T, nat>)
    ensures index.Keys == elements
    ensures forall a :: a in index ==> index[a] < |elements|
    ensures forall a, b :: a in index && b in index && index[a] == index[b] ==> a == b
  {
    if elements == {} {
      index := map[];
    } else {
      var x :| x in elements;
      var rest := Numbering(elements - {x});
      index := rest[x := |elements - {x}|];
    }
  }

  function Tally(n: nat): (text: string)
    ensures |text| == n && ':' !in text && '|' !in text
  {
    seq(n, _ => 'i')
  }

  /** Whatever numbers are in use, some way of printing keeps them apart. */
  lemma PrintingExists(numbers: set<real>)
    ensures exists show :: Prints(show, numbers)
  {
    var index := Numbering(numbers);
    var show: NumberText := x => if x in index then Tally(index[x]) else "";
    forall a, b | a in numbers && b in numbers && Print(show, a) == Print(show, b) ensures a == b {
      assert |Print(show, a)| == index[a] && |Print(show, b)| == index[b];
    }
    assert Prints(show, numbers);
  }

  function KindName(kind: Kind): string {
    match kind
    case KSma => "sma"
    case KEma => "ema"
    case KRsi => "rsi"
    case KMacd => "macd"
    case KBollinger => "bollinger"
    case KAtr => "atr"
    case KRoc => "roc"
    case KStoch => "stoch"
    case KVwap => "vwap"
    case KRollingHigh => "rolling_high"
    case KRollingLow => "rolling_low"
    case KCandleBodyPct => "candle_body_pct"
    case KCandleDirection => "candle_direction"
  }

  function OutputName(output: Output): string {
    match output
    case OValue => "value"
    case OLine => "line"
    case OSignal => "signal"
    case OHistogram => "histogram"
    case OUpper => "upper"
    case OMiddle => "middle"
    case OLower => "lower"
    case OK => "k"
    case OD => "d"
    case ODirection => "direction"
  }

  function FieldName(field: PriceField): string {
    match field
    case FOpen => "open"
    case FHigh => "high"
    case FLow => "low"
    case FClose => "close"
    case FVolume => "volume"
    case FHl2 => "hl2"
    case FHlc3 => "hlc3"
    case FOhlc4 => "ohlc4"
  }

  /** The parameter names in the order the key sorts them. */
  const PARAM_NAMES: seq<string> :=
    ["fastPeriod", "lookback", "period", "signalPeriod", "slowPeriod", "smoothD", "smoothK", "source", "stdDev"]

  function PeriodText(show: NumberText, p: Option<Period>): Option<string> {
    if p.None? then None else Some(Print(show, p.value as real))
  }

  function FieldText(f: Option<PriceField>): Option<string> {
    if f.None? then None else Some(FieldName(f.value))
  }

  function NumberOption(show: NumberText, x: Option<real>): Option<string> {
    if x.None? then None else Some(Print(show, x.value))
  }

  function PeriodNumbers(p: Option<Period>): set<real> {
    if p.None? then {} else {p.value as real}
  }

  /** The numbers among a reference's parameters. */
  function NumbersOf(p: Params): set<real> {
    PeriodNumbers(p.fastPeriod) + PeriodNumbers(p.lookback) + PeriodNumbers(p.period) + PeriodNumbers(p.signalPeriod) +
    PeriodNumbers(p.slowPeriod) + PeriodNumbers(p.smoothD) + PeriodNumbers(p.smoothK) +
    (if p.stdDev.None? then {} else {p.stdDev.value})
  }

  function ParamTexts(show: NumberText, p: Params): (texts: seq<Option<string>>)
    ensures |texts| == |PARAM_NAMES|
  {
    [PeriodText(show, p.fastPeriod), PeriodText(show, p.lookback), PeriodText(show, p.period),
     PeriodText(show, p.signalPeriod), PeriodText(show, p.slowPeriod), PeriodText(show, p.smoothD),
     PeriodText(show, p.smoothK), FieldText(p.source), NumberOption(show, p.stdDev)]
  }

  /** Two texts with a separator between them. */
  function Pair(a: string, c: char, b: string): string {
    a + ([c] + b)
  }

  /** `name:value` for each parameter that is given. */
  function Entries(names: seq<string>, texts: seq<Option<string>>): seq<string>
    requires |names| == |texts|
  {
    if |names| == 0 then []
    else if texts[0].None? then Entries(names[1..], texts[1..])
    else [Pair(names[0], ':', texts[0].value)] + Entries(names[1..], texts[1..])
  }

  function Join(entries: seq<string>): string {
    if |entries| == 0 then ""
    else if |entries| == 1 then entries[0]
    else Pair(entries[0], '|', Join(entries[1..]))
  }

  function IndicatorKey(show: NumberText, kind: Kind, output: Output, params: Params): string {
    Pair(KindName(kind), ':', Pair(OutputName(output), ':', Join(Entries(PARAM_NAMES, ParamTexts(show, params)))))
  }

  // ----- Taking a key apart -----

  /** A text splits in one way only at the first occurrence of a separator. */
  lemma SplitOnce(a: string, x: string, b: string, y: string, c: char)
    requires Pair(a, c, x) == Pair(b, c, y) && c !in a && c !in b
    ensures a == b && x == y
  {
    var whole := Pair(a, c, x);
    assert whole[|a|] == c && whole[|b|] == c;
    assert forall i :: 0 <= i < |a| ==> whole[i] == a[i] && a[i] != c;
    assert forall i :: 0 <= i < |b| ==> whole[i] == b[i] && b[i] != c;
    assert a == whole[..|a|] && b == whole[..|b|];
    assert x == whole[|a| + 1..] && y == whole[|b| + 1..];
  }

  ghost predicate Joinable(entries: seq<string>) {
    forall e :: e in entries ==> |e| > 0 && '|' !in e
  }

  lemma {:induction false} JoinInjective(a: seq<string>, b: seq<string>)
    requires Joinable(a) && Joinable(b) && Join(a) == Join(b)
    ensures a == b
  {
    if |a| == 0 || |b| == 0 {
      JoinNonEmpty(a);
      JoinNonEmpty(b);
    } else if |a| == 1 || |b| == 1 {
      JoinHasBar(a);
      JoinHasBar(b);
    } else {
      SplitOnce(a[0], Join(a[1..]), b[0], Join(b[1..]), '|');
      JoinInjective(a[1..], b[1..]);
      assert a == [a[0]] + a[1..] && b == [b[0]] + b[1..];
    }
  }

  lemma {:induction false} JoinNonEmpty(a: seq<string>)
    requires Joinable(a)
    ensures Join(a) == "" <==> a == []
  {
  }

  lemma {:induction false} JoinHasBar(a: seq<string>)
    requires Joinable(a) && |a| > 0
    ensures '|' in Join(a) <==> |a| > 1
  {
  }

  ghost predicate Separable(names: seq<string>, texts: seq<Option<string>>)
    requires |names| == |texts|
  {
    && (forall i :: 0 <= i < |names| ==> ':' !in names[i] && '|' !in names[i])
    && (forall i :: 0 <= i < |texts| && texts[i].Some? ==> '|' !in texts[i].value)
  }

  /** Every entry starts with one of the names. */
  lemma {:induction false} EntryHasName(names: seq<string>, texts: seq<Option<string>>, e: string)
    requires |names| == |texts| && Separable(names, texts) && e in Entries(names, texts)
    ensures exists i :: 0 <= i < |names| && texts[i].Some? && e == Pair(names[i], ':', texts[i].value)
    ensures |e| > 0 && '|' !in e
  {
    if texts[0].Some? && e == Pair(names[0], ':', texts[0].value) {
    } else {
      EntryHasName(names[1..], texts[1..], e);
      var i :| 0 <= i < |names[1..]| && texts[1..][i].Some? && e == Pair(names[1..][i], ':', texts[1..][i].value);
      assert names[i + 1] == names[1..][i] && texts[i + 1] == texts[1..][i];
    }
  }

  lemma {:induction false} NameOfEntry(names: seq<string>, texts: seq<Option<string>>, name: string, v: string)
    requires |names| == |texts| && Separable(names, texts) && ':' !in name
    requires Pair(name, ':', v) in Entries(names, texts)
    ensures name in names
  {
    EntryHasName(names, texts, Pair(name, ':', v));
    var i :| 0 <= i < |names| && texts[i].Some? && Pair(name, ':', v) == Pair(names[i], ':', texts[i].value);
    SplitOnce(name, v, names[i], texts[i].value, ':');
  }

  ghost predicate AllDifferent(names: seq<string>) {
    forall i, j :: 0 <= i < j < |names| ==> names[i] != names[j]
  }

  lemma {:induction false} FirstGivenAlike(names: seq<string>, a: seq<Option<string>>, b: seq<Option<string>>)
    requires 0 < |names| == |a| == |b| && AllDifferent(names) && Separable(names, a) && Separable(names, b)
    requires Entries(names, a) == Entries(names, b)
    ensures a[0].Some? ==> b[0].Some?
  {
    if a[0].Some? && b[0].None? {
      assert Entries(names, a)[0] == Pair(names[0], ':', a[0].value);
      NameOfEntry(names[1..], b[1..], names[0], a[0].value);
      assert false;
    }
  }

  /** The entries determine which parameters are given, and their texts. */
  lemma {:induction false} EntriesInjective(names: seq<string>, a: seq<Option<string>>, b: seq<Option<string>>)
    requires |names| == |a| == |b| && AllDifferent(names) && Separable(names, a) && Separable(names, b)
    requires Entries(names, a) == Entries(names, b)
    ensures a == b
  {
    if |names| > 0 {
      var x, y := Entries(names, a), Entries(names, b);
      FirstGivenAlike(names, a, b);
      FirstGivenAlike(names, b, a);
      if a[0].Some? {
        assert x[0] == Pair(names[0], ':', a[0].value) && y[0] == Pair(names[0], ':', b[0].value);
        SplitOnce(names[0], a[0].value, names[0], b[0].value, ':');
        assert x[1..] == y[1..];
      }
      EntriesInjective(names[1..], a[1..], b[1..]);
      assert a == [a[0]] + a[1..] && b == [b[0]] + b[1..];
    }
  }

  lemma {:induction false} EntriesJoinable(names: seq<string>, texts: seq<Option<string>>)
    requires |names| == |texts| && Separable(names, texts)
    ensures Joinable(Entries(names, texts))
  {
    forall e | e in Entries(names, texts) ensures |e| > 0 && '|' !in e {
      EntryHasName(names, texts, e);
    }
  }

  // ----- The names -----

  lemma NamesAreDifferent()
    ensures AllDifferent(PARAM_NAMES)
    ensures forall i :: 0 <= i < |PARAM_NAMES| ==> ':' !in PARAM_NAMES[i] && '|' !in PARAM_NAMES[i]
  {
    assert "fastPeriod"[0] == 'f' && "lookback"[0] == 'l' && "period"[0] == 'p';
    assert "signalPeriod"[1] == 'i' && "slowPeriod"[1] == 'l' && "smoothD"[1] == 'm' && "smoothK"[1] == 'm';
    assert "smoothD"[6] == 'D' && "smoothK"[6] == 'K' && "source"[1] == 'o' && "stdDev"[1] == 't';
  }

  lemma KindNamesDiffer(a: Kind, b: Kind)
    ensures ':' !in KindName(a)
    ensures KindName(a) == KindName(b) ==> a == b
  {
    var x, y := KindName(a), KindName(b);
    assert x == y ==> |x| == |y| && x[0] == y[0] && x[1] == y[1];
  }

  lemma OutputNamesDiffer(a: Output, b: Output)
    ensures ':' !in OutputName(a)
    ensures OutputName(a) == OutputName(b) ==> a == b
  {
  }

  lemma FieldNamesDiffer(a: PriceField, b: PriceField)
    ensures '|' !in FieldName(a)
    ensures FieldName(a) == FieldName(b) ==> a == b
  {
  }

  lemma TextsSeparable(show: NumberText, numbers: set<real>, p: Params)
    requires Prints(show, numbers) && NumbersOf(p) <= numbers
    ensures Separable(PARAM_NAMES, ParamTexts(show, p))
  {
    NamesAreDifferent();
    if p.source.Some? { FieldNamesDiffer(p.source.value, p.source.value); }
    var texts := ParamTexts(show, p);
    PeriodHasNoBar(show, numbers, p.fastPeriod);
    PeriodHasNoBar(show, numbers, p.lookback);
    PeriodHasNoBar(show, numbers, p.period);
    PeriodHasNoBar(show, numbers, p.signalPeriod);
    PeriodHasNoBar(show, numbers, p.slowPeriod);
    PeriodHasNoBar(show, numbers, p.smoothD);
    PeriodHasNoBar(show, numbers, p.smoothK);
    assert NoBar(texts[0]) && NoBar(texts[1]) && NoBar(texts[2]) && NoBar(texts[3]) && NoBar(texts[4]);
    assert NoBar(texts[5]) && NoBar(texts[6]) && NoBar(texts[7]) && NoBar(texts[8]);
    assert forall i :: 0 <= i < |texts| ==> NoBar(texts[i]);
  }

  lemma PeriodHasNoBar(show: NumberText, numbers: set<real>, p: Option<Period>)
    requires Prints(show, numbers) && PeriodNumbers(p) <= numbers
    ensures NoBar(PeriodText(show, p))
  {
  }

  predicate NoBar(text: Option<string>) {
    text.Some? ==> '|' !in text.value
  }

  lemma TextsInjective(show: NumberText, numbers: set<real>, p: Params, q: Params)
    requires Prints(show, numbers) && NumbersOf(p) <= numbers && NumbersOf(q) <= numbers
    requires ParamTexts(show, p) == ParamTexts(show, q)
    ensures p == q
  {
    var x, y := ParamTexts(show, p), ParamTexts(show, q);
    assert x[0] == y[0] && x[1] == y[1] && x[2] == y[2] && x[3] == y[3] && x[4] == y[4];
    assert x[5] == y[5] && x[6] == y[6] && x[7] == y[7] && x[8] == y[8];
    PeriodTextInjective(show, numbers, p.fastPeriod, q.fastPeriod);
    PeriodTextInjective(show, numbers, p.lookback, q.lookback);
    PeriodTextInjective(show, numbers, p.period, q.period);
    PeriodTextInjective(show, numbers, p.signalPeriod, q.signalPeriod);
    PeriodTextInjective(show, numbers, p.slowPeriod, q.slowPeriod);
    PeriodTextInjective(show, numbers, p.smoothD, q.smoothD);
    PeriodTextInjective(show, numbers, p.smoothK, q.smoothK);
    FieldTextInjective(p.source, q.source);
    assert p.stdDev == q.stdDev;
  }

  lemma FieldTextInjective(p: Option<PriceField>, q: Option<PriceField>)
    ensures FieldText(p) == FieldText(q) ==> p == q
  {
  }

  lemma PeriodTextInjective(show: NumberText, numbers: set<real>, p: Option<Period>, q: Option<Period>)
    requires Prints(show, numbers) && PeriodNumbers(p) <= numbers && PeriodNumbers(q) <= numbers
    ensures PeriodText(show, p) == PeriodText(show, q) ==> p == q
  {
  }

  /** Two references share a key exactly when they agree in indicator, output and every parameter. */
  lemma KeysIdentifySeries(show: NumberText, numbers: set<real>, k1: Kind, o1: Output, p1: Params,
                           k2: Kind, o2: Output, p2: Params)
    requires Prints(show, numbers) && NumbersOf(p1) <= numbers && NumbersOf(p2) <= numbers
    ensures IndicatorKey(show, k1, o1, p1) == IndicatorKey(show, k2, o2, p2) <==> k1 == k2 && o1 == o2 && p1 == p2
  {
    if IndicatorKey(show, k1, o1, p1) == IndicatorKey(show, k2, o2, p2) {
      var e1, e2 := Entries(PARAM_NAMES, ParamTexts(show, p1)), Entries(PARAM_NAMES, ParamTexts(show, p2));
      var r1, r2 := Pair(OutputName(o1), ':', Join(e1)), Pair(OutputName(o2), ':', Join(e2));
      KindNamesDiffer(k1, k2);
      KindNamesDiffer(k2, k1);
      SplitOnce(KindName(k1), r1, KindName(k2), r2, ':');
      OutputNamesDiffer(o1, o2);
      OutputNamesDiffer(o2, o1);
      SplitOnce(OutputName(o1), Join(e1), OutputName(o2), Join(e2), ':');
      TextsSeparable(show, numbers, p1);
      TextsSeparable(show, numbers, p2);
      NamesAreDifferent();
      EntriesJoinable(PARAM_NAMES, ParamTexts(show, p1));
      EntriesJoinable(PARAM_NAMES, ParamTexts(show, p2));
      JoinInjective(e1, e2);
      EntriesInjective(PARAM_NAMES, ParamTexts(show, p1), ParamTexts(show, p2));
      TextsInjective(show, numbers, p1, p2);
    }
  }
}
