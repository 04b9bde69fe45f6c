/**
 The signal check by its rules: which item is accepted, which error is reported, and what is passed on
 (backtest_engine.py, StrategyRunner._validate_signals).
 */
module SignalRules {
  import opened Clock
  import opened Options
  import opened SignalCheck
  import opened Signals

  // ---------------------------------------------------------------------------
  // Text

  ghost predicate Blanks(t: string) {
    forall c :: c in t ==> IsSpace(c)
  }

  lemma {:induction false} FrontIs(t: string) returns (front: string)
    ensures t == front + TrimFront(t) && Blanks(front)
  {
    if t != "" && IsSpace(t[0]) {
      var rest := FrontIs(t[1..]);
      front := [t[0]] + rest;
      assert t == [t[0]] + t[1..];
    } else {
      front := "";
    }
  }

  lemma {:induction false} BackIs(t: string) returns (back: string)
    ensures t == TrimBack(t) + back && Blanks(back)
  {
    if t != "" && IsSpace(t[|t| - 1]) {
      var last := t[|t| - 1];
      var rest := BackIs(t[..|t| - 1]);
      back := rest + [last];
      assert t == t[..|t| - 1] + [last];
      assert TrimBack(t) + (rest + [last]) == (TrimBack(t) + rest) + [last];
    } else {
      back := "";
    }
  }

  /** Stripping removes blanks at both ends, all of them, and nothing else. */
  lemma StripIs(t: string) returns (front: string, back: string)
    ensures t == front + Strip(t) + back && Blanks(front) && Blanks(back) && Bare(Strip(t))
  {
    front := FrontIs(t);
    back := BackIs(TrimFront(t));
    Stripped(t);
    assert front + (Strip(t) + back) == front + Strip(t) + back;
  }

  lemma {:induction false} NothingLeft(t: string)
    ensures Strip(t) == "" <==> Blanks(t)
  {
    var front, back := StripIs(t);
    hide Strip, IsSpace;
    if Strip(t) == "" {
      assert t == front + back;
    } else {
      assert t[|front|] == Strip(t)[0] && t[|front|] in t;
    }
  }

  /** The 26 small letters are raised, by the distance from small to capital; everything else is kept. */
  lemma UpperIs(c: char)
    ensures 'a' <= c <= 'z' ==> 'A' <= UpperChar(c) <= 'Z' && c as int - UpperChar(c) as int == 32
    ensures !('a' <= c <= 'z') ==> UpperChar(c) == c
  {
  }

  function Name(action: Action): string {
    match action
    case Buy => "BUY"
    case Sell => "SELL"
    case Watch => "WATCH"
  }

  /** Exactly the three names are actions, each its own. */
  lemma ActionNames(action: Action, text: string)
    ensures ActionOf(text) == Some(action) <==> text == Name(action)
  {
  }

  predicate Digits(t: string) {
    forall c :: c in t ==> c in "0123456789"
  }

  /** Six digits, a dot and one of the three exchanges. */
  lemma StandardIff(code: string)
    ensures Standard(code) <==>
              exists digits: string, exchange: string ::
                && code == digits + "." + exchange && |digits| == 6 && Digits(digits)
                && (exchange == "SH" || exchange == "SZ" || exchange == "BJ")
  {
    if Standard(code) {
      var digits, exchange := code[..6], code[7..];
      assert code == digits + "." + exchange;
      assert code[6..][1..] == exchange;
      forall c | c in digits
        ensures c in "0123456789"
      {
        assert c == "0123456789"[c as int - '0' as int];
      }
    }
    if digits: string, exchange: string :|
      && code == digits + "." + exchange && |digits| == 6 && Digits(digits)
      && (exchange == "SH" || exchange == "SZ" || exchange == "BJ") {
      assert code[6..] == "." + exchange;
      assert forall i :: 0 <= i < 6 ==> code[i] == digits[i] && digits[i] in digits;
    }
  }

  // ---------------------------------------------------------------------------
  // The rules, in the order in which they are tried

  function Turn(error: SignalError): nat {
    match error
    case NotDict => 0
    case MissingField => 1
    case UnknownAction => 2
    case BadSymbol => 3
    case PriceNotNumber => 4
    case PriceNotPositive => 5
    case AmountNotNumber => 6
    case AmountNegative => 7
    case NoReason => 8
    case UnreadableTime => 9
    case FutureSignal => 10
    case OutOfTaskRange => 11
  }

  ghost predicate DayIs(raw: RawSignal, current: Day, day: Day) {
    if raw.time.NoTime? then day == current else raw.time.Readable? && !raw.time.time.Unset? && day == raw.time.time.day
  }

  /** What each error says of an item, by itself. */
  ghost predicate Breaks(raw: RawSignal, current: Day, start: Day, end: Day, error: SignalError) {
    match error
    case NotDict => !raw.isDict
    case MissingField => raw.symbol.NotGiven? || raw.action.NotGiven? || raw.price.Absent? || raw.reason.NotGiven?
    case UnknownAction => raw.action.Given? && forall a :: Clean(raw.action.text) != Name(a)
    case BadSymbol => raw.symbol.Given? && !Standard(Clean(raw.symbol.text))
    case PriceNotNumber => raw.price.Empty? || raw.price.NotNumeric?
    case PriceNotPositive => raw.price.Numeric? && raw.price.value <= 0.0
    case AmountNotNumber => raw.amount.NotNumeric?
    case AmountNegative => raw.amount.Numeric? && raw.amount.value < 0.0
    case NoReason => raw.reason.Given? && Blanks(raw.reason.text)
    case UnreadableTime => raw.time.Unreadable? || (raw.time.Readable? && raw.time.time.Unset?)
    case FutureSignal => exists day: Day :: DayIs(raw, current, day) && day > current
    case OutOfTaskRange => exists day: Day :: DayIs(raw, current, day) && (day < start || day > end)
  }

  lemma KnownAction(text: string)
    ensures ActionOf(text).None? <==> forall a :: text != Name(a)
  {
    assert forall a :: ActionOf(text) == Some(a) <==> text == Name(a);
  }

  lemma TimeIsDay(raw: RawSignal, current: Day)
    ensures TimeOf(raw, current).None? <==> raw.time.Unreadable? || (raw.time.Readable? && raw.time.time.Unset?)
    ensures TimeOf(raw, current).Some? ==> DayIs(raw, current, TimeOf(raw, current).value.day)
    ensures forall day: Day :: DayIs(raw, current, day) ==>
              TimeOf(raw, current).Some? && day == TimeOf(raw, current).value.day
  {
  }

  /** An item is accepted iff it breaks no rule, and refused for the one it breaks whose turn comes first. */
  lemma FirstBrokenRule(raw: RawSignal, current: Day, start: Day, end: Day)
    ensures var r := ValidateSignal(raw, current, start, end);
            && (r.Accepted? <==> forall e :: !Breaks(raw, current, start, end, e))
            && (r.Rejected? ==>
                  && Breaks(raw, current, start, end, r.error)
                  && forall e :: Turn(e) < Turn(r.error) ==> !Breaks(raw, current, start, end, e))
  {
    hide Standard, Clean, Strip, ActionOf, Blanks, DayIs, TimeOf, Name;
    if raw.action.Given? {
      KnownAction(Clean(raw.action.text));
    }
    if raw.reason.Given? {
      NothingLeft(raw.reason.text);
    }
    TimeIsDay(raw, current);
    var r := ValidateSignal(raw, current, start, end);
    assert r.Rejected? ==> Breaks(raw, current, start, end, r.error);
  }

  /** What is passed on: the cleaned code and action, the amount if it is a number, the time, the rest as it was. */
  lemma AcceptedIs(raw: RawSignal, current: Day, start: Day, end: Day)
    ensures var r := ValidateSignal(raw, current, start, end);
            r.Accepted? ==>
              && r.value.symbol == Clean(raw.symbol.text) && Name(r.value.action) == Clean(raw.action.text)
              && (raw.amount.Numeric? ==> r.value.amount == Number(raw.amount.value))
              && (!raw.amount.Numeric? ==> r.value.amount == Blank)
              && (raw.time.NoTime? ==> r.value.time == OnDay(current))
              && (raw.time.Readable? ==> r.value.time == raw.time.time)
              && r.value == raw.others.(symbol := r.value.symbol, action := r.value.action, amount := r.value.amount,
                                        time := r.value.time)
  {
    hide Standard, Clean, Strip;
  }
}
