/**
 * The ROI calculator: four numeric inputs, each shown in a text box and on a
 * slider, and the revenue funnel computed from them.
 */
module RoiCalculator {
  import opened RoiNumber

  datatype RoiField = MonthlyLeadVolume | ReplyRate | CloseRate | AvgDealValue

  const AllFields: set<RoiField> := {MonthlyLeadVolume, ReplyRate, CloseRate, AvgDealValue}

  /** The two percentage fields, whose slider writes the plain number back to the text box. */
  predicate IsRate(f: RoiField) {
    f == ReplyRate || f == CloseRate
  }

  datatype RoiResults = RoiResults(replies: real, closedDeals: real, monthlyRevenue: real, annualRevenue: real)

  /** The funnel: leads that reply, replies that close, deals times their value, and a year of months. */
  function Funnel(volume: real, replyRate: real, closeRate: real, dealValue: real): (r: RoiResults)
    ensures r.annualRevenue == 12.0 * r.monthlyRevenue
  {
    var replies := volume * (replyRate / 100.0);
    var closedDeals := replies * (closeRate / 100.0);
    var monthlyRevenue := closedDeals * dealValue;
    RoiResults(replies, closedDeals, monthlyRevenue, monthlyRevenue * 12.0)
  }

  /** Every result is a product of the inputs, the two rates taken as percentages. */
  lemma FunnelClosedForm(volume: real, replyRate: real, closeRate: real, dealValue: real)
    ensures Funnel(volume, replyRate, closeRate, dealValue).replies == volume * replyRate / 100.0
    ensures Funnel(volume, replyRate, closeRate, dealValue).closedDeals == volume * replyRate * closeRate / 10000.0
    ensures Funnel(volume, replyRate, closeRate, dealValue).monthlyRevenue
         == volume * replyRate * closeRate * dealValue / 10000.0
    ensures Funnel(volume, replyRate, closeRate, dealValue).annualRevenue
         == 12.0 * volume * replyRate * closeRate * dealValue / 10000.0
  {
    var vr := volume * replyRate;
    assert volume * (replyRate / 100.0) == vr / 100.0;
    assert vr / 100.0 * (closeRate / 100.0) == vr * closeRate / 10000.0;
  }

  lemma ProductZero(x: real, y: real)
    ensures x * y == 0.0 <==> x == 0.0 || y == 0.0
  {
  }

  /**
   * A zero input empties every stage from its own on: no replies exactly when
   * there are no leads or no replies, no deals exactly when also nothing
   * closes, and no revenue exactly when some input is zero.
   */
  lemma {:induction false} FunnelZero(volume: real, replyRate: real, closeRate: real, dealValue: real)
    ensures var r := Funnel(volume, replyRate, closeRate, dealValue);
      && (r.replies == 0.0 <==> volume == 0.0 || replyRate == 0.0)
      && (r.closedDeals == 0.0 <==> volume == 0.0 || replyRate == 0.0 || closeRate == 0.0)
      && (r.monthlyRevenue == 0.0 <==> volume == 0.0 || replyRate == 0.0 || closeRate == 0.0 || dealValue == 0.0)
      && (r.annualRevenue == 0.0 <==> r.monthlyRevenue == 0.0)
  {
    var r := Funnel(volume, replyRate, closeRate, dealValue);
    ProductZero(volume, replyRate / 100.0);
    ProductZero(r.replies, closeRate / 100.0);
    ProductZero(r.closedDeals, dealValue);
  }

  lemma MulMono(a: real, b: real, c: real, d: real)
    requires 0.0 <= a <= b && 0.0 <= c <= d
    ensures 0.0 <= a * c <= b * d
  {
    assert a * c <= b * c;
    assert b * c <= b * d;
  }

  /** Raising any input, with all inputs non-negative, never lowers any result. */
  lemma {:induction false} FunnelMonotone(v: real, rr: real, cr: real, dv: real, v': real, rr': real, cr': real, dv': real)
    requires 0.0 <= v <= v' && 0.0 <= rr <= rr' && 0.0 <= cr <= cr' && 0.0 <= dv <= dv'
    ensures var r, r' := Funnel(v, rr, cr, dv), Funnel(v', rr', cr', dv');
      && 0.0 <= r.replies <= r'.replies
      && 0.0 <= r.closedDeals <= r'.closedDeals
      && 0.0 <= r.monthlyRevenue <= r'.monthlyRevenue
      && 0.0 <= r.annualRevenue <= r'.annualRevenue
  {
    var r, r' := Funnel(v, rr, cr, dv), Funnel(v', rr', cr', dv');
    MulMono(v, v', rr / 100.0, rr' / 100.0);
    MulMono(r.replies, r'.replies, cr / 100.0, cr' / 100.0);
    MulMono(r.closedDeals, r'.closedDeals, dv, dv');
  }

  /** The starting inputs give 250 replies, 25 deals, $125,000 a month and $1,500,000 a year. */
  lemma InitialFunnel()
    ensures Funnel(5000.0, 5.0, 10.0, 5000.0) == RoiResults(250.0, 25.0, 125000.0, 1500000.0)
  {
    assert 5000.0 * (5.0 / 100.0) == 250.0;
    assert 250.0 * (10.0 / 100.0) == 25.0;
  }

  /** What the text box shows for a stored number: `String(n)` for a percentage, `formatNumber(n)` otherwise. */
  function Displayed(isPercent: bool, d: Decimal): string {
    if isPercent then NumberString(d) else FormatNumber(Value(d))
  }

  lemma RoundWhole(n: nat)
    ensures Round(n as real) == n
  {
  }

  /**
   * Leaving a text box and typing back what it then shows stores the same
   * number again (a whole number for the non-percentage fields, which is all
   * their digit-only filter and their slider produce).
   */
  lemma BlurRetypeKeepsValue(d: Decimal, isPercent: bool)
    requires !isPercent ==> d.scale == 0
    ensures IsNumberText(Clean(Displayed(isPercent, d), isPercent))
    ensures Value(NumberOrZero(Clean(Displayed(isPercent, d), isPercent))) == Value(d)
  {
    CleanIsNumberText(Displayed(isPercent, d), isPercent);
    if isPercent {
      PercentRoundTrip(d);
    } else {
      WholeRetype(d);
    }
  }

  lemma WholeRetype(d: Decimal)
    requires d.scale == 0
    ensures IsNumberText(Clean(FormatNumber(Value(d)), false))
    ensures Value(NumberOrZero(Clean(FormatNumber(Value(d)), false))) == Value(d)
  {
    assert Value(d) == d.units as real;
    CleanIsNumberText(FormatNumber(Value(d)), false);
    WholeRoundTrip(Value(d));
    RoundWhole(d.units);
  }

  const InitialInputs: map<RoiField, Decimal> :=
    map[MonthlyLeadVolume := Decimal(5000, 0), ReplyRate := Decimal(5, 0),
        CloseRate := Decimal(10, 0), AvgDealValue := Decimal(5000, 0)]

  const InitialDisplayValues: map<RoiField, string> :=
    map[MonthlyLeadVolume := "5,000", ReplyRate := "5", CloseRate := "10", AvgDealValue := "5,000"]

  /** Each initial text is its number as the formatters write it, and the numbers give the initial results. */
  lemma InitialState()
    ensures InitialInputs.Keys == AllFields && InitialDisplayValues.Keys == AllFields
    ensures forall f :: f in AllFields ==> InitialDisplayValues[f] == Displayed(IsRate(f), InitialInputs[f])
    ensures Funnel(Value(InitialInputs[MonthlyLeadVolume]), Value(InitialInputs[ReplyRate]),
                   Value(InitialInputs[CloseRate]), Value(InitialInputs[AvgDealValue]))
         == RoiResults(250.0, 25.0, 125000.0, 1500000.0)
  {
    InitialDisplays();
    forall f | f in AllFields ensures InitialDisplayValues[f] == Displayed(IsRate(f), InitialInputs[f]) {
      match f
      case MonthlyLeadVolume =>
      case ReplyRate =>
      case CloseRate =>
      case AvgDealValue =>
    }
    InitialValues();
    InitialFunnel();
  }

  lemma InitialValues()
    ensures Value(InitialInputs[MonthlyLeadVolume]) == 5000.0 && Value(InitialInputs[ReplyRate]) == 5.0
    ensures Value(InitialInputs[CloseRate]) == 10.0 && Value(InitialInputs[AvgDealValue]) == 5000.0
  {
    assert Pow10(0) == 1;
  }

  /** The calculator's state: the numbers the funnel uses and the text each box shows. */
  class Calculator {
    var inputs: map<RoiField, Decimal>
    var displayValues: map<RoiField, string>

    predicate Valid()
      reads this
    {
      inputs.Keys == AllFields && displayValues.Keys == AllFields
    }

    /** The `useMemo` results for the current inputs. */
    function Results(): RoiResults
      reads this
      requires Valid()
    {
      Funnel(Value(inputs[MonthlyLeadVolume]), Value(inputs[ReplyRate]),
             Value(inputs[CloseRate]), Value(inputs[AvgDealValue]))
    }

    /** 5000 leads, 5% replies, 10% closes, $5,000 deals: 250 replies, 25 deals, $125,000 a month, $1,500,000 a year. */
    constructor()
      ensures Valid()
      ensures inputs == InitialInputs && displayValues == InitialDisplayValues
      ensures forall f :: f in AllFields ==> displayValues[f] == Displayed(IsRate(f), inputs[f])
      ensures Results() == RoiResults(250.0, 25.0, 125000.0, 1500000.0)
    {
      inputs := InitialInputs;
      displayValues := InitialDisplayValues;
      new;
      InitialState();
    }

    /** Typing into a text box: it shows the filtered text, and the field holds `Number(text) || 0`. */
    method HandleInputChange(field: RoiField, value: string, isPercent: bool)
      requires Valid()
      modifies this
      ensures Valid()
      ensures displayValues == old(displayValues)[field := Clean(value, isPercent)]
      ensures IsNumberText(Clean(value, isPercent))
      ensures inputs == old(inputs)[field := NumberOrZero(Clean(value, isPercent))]
    {
      var cleanValue := Clean(value, isPercent);
      CleanIsNumberText(value, isPercent);
      displayValues := displayValues[field := cleanValue];
      inputs := inputs[field := NumberOrZero(cleanValue)];
    }

    /** Moving a slider: the field holds the slider's number, and the text box shows it. */
    method HandleSliderChange(field: RoiField, value: string)
      requires Valid()
      requires IsNumberText(value) && ToNumber(value).Some?
      modifies this
      ensures Valid()
      ensures inputs == old(inputs)[field := ToNumber(value).value]
      ensures displayValues == old(displayValues)[field := Displayed(IsRate(field), ToNumber(value).value)]
    {
      var numValue := ToNumber(value).value;
      inputs := inputs[field := numValue];
      if field == ReplyRate || field == CloseRate {
        displayValues := displayValues[field := NumberString(numValue)];
      } else {
        displayValues := displayValues[field := FormatNumber(Value(numValue))];
      }
    }

    /** Leaving a text box: it shows the field's number again, formatted. */
    method HandleInputBlur(field: RoiField, isPercent: bool)
      requires Valid()
      modifies this`displayValues
      ensures Valid()
      ensures displayValues == old(displayValues)[field := Displayed(isPercent, inputs[field])]
    {
      if isPercent {
        displayValues := displayValues[field := NumberString(inputs[field])];
      } else {
        displayValues := displayValues[field := FormatNumber(Value(inputs[field]))];
      }
    }
  }

  /** The initial texts are what the formatters write for the initial numbers. */
  lemma InitialDisplays()
    ensures Displayed(false, Decimal(5000, 0)) == "5,000"
    ensures Displayed(true, Decimal(5, 0)) == "5"
    ensures Displayed(true, Decimal(10, 0)) == "10"
  {
    assert Value(Decimal(5000, 0)) == 5000.0;
    FiveThousandShown();
    assert DecimalDigits(5) == "5";
    assert Normalize(Decimal(10, 0)) == Decimal(10, 0);
    assert DecimalDigits(10) == DecimalDigits(1) + "0";
  }

  lemma FiveThousandShown()
    ensures FormatNumber(5000.0) == "5,000"
  {
    RoundWhole(5000);
    assert DecimalDigits(0) == "0";
    assert PadStart("0", 3) == "000";
    assert DecimalDigits(5) == "5";
    assert Group(5000) == "5,000";
  }
}
