/** Which signals a strategy may return (backtest_engine.py, StrategyRunner._validate_signals). */
module SignalCheck {
  import opened Clock
  import opened Options
  import opened Signals

  // ---------------------------------------------------------------------------
  // Text

  /** The blanks of ASCII, as Python's `strip` sees them: the separators 28 to 31 are among them. */
  predicate IsSpace(c: char): (blank: bool)
    ensures c == ' ' || c == '\t' || c == '\n' || c == '\r' ==> blank
    ensures blank && c != ' ' && c != '\t' && c != '\n' && c != '\r' ==> c as int in {11, 12, 28, 29, 30, 31}
    ensures c as int in {11, 12, 28, 29, 30, 31} ==> blank
  {
    9 <= c as int <= 13 || 28 <= c as int <= 32
  }

  function TrimFront(t: string): string {
    if t != "" && IsSpace(t[0]) then TrimFront(t[1..]) else t
  }

  function TrimBack(t: string): (r: string)
    ensures r <= t
  {
    if t != "" && IsSpace(t[|t| - 1]) then TrimBack(t[..|t| - 1]) else t
  }

  function Strip(t: string): string {
    TrimBack(TrimFront(t))
  }

  function UpperChar(c: char): char {
    if 'a' <= c <= 'z' then c - 'a' + 'A' else c
  }

  function Upper(t: string): (r: string)
    ensures |r| == |t| && forall i :: 0 <= i < |t| ==> r[i] == UpperChar(t[i])
  {
    seq(|t|, i requires 0 <= i < |t| => UpperChar(t[i]))
  }

  function Clean(t: string): string {
    Upper(Strip(t))
  }

  predicate Bare(t: string) {
    t == "" || (!IsSpace(t[0]) && !IsSpace(t[|t| - 1]))
  }

  lemma {:induction false} FrontTrimmed(t: string)
    ensures TrimFront(t) == "" || !IsSpace(TrimFront(t)[0])
  {
    if t != "" && IsSpace(t[0]) {
      FrontTrimmed(t[1..]);
    }
  }

  lemma {:induction false} BackTrimmed(t: string)
    ensures TrimBack(t) == "" || !IsSpace(TrimBack(t)[|TrimBack(t)| - 1])
  {
    if t != "" && IsSpace(t[|t| - 1]) {
      BackTrimmed(t[..|t| - 1]);
    }
  }

  lemma Stripped(t: string)
    ensures Bare(Strip(t))
  {
    FrontTrimmed(t);
    BackTrimmed(TrimFront(t));
  }

  lemma UpperAgain(t: string)
    ensures Upper(Upper(t)) == Upper(t)
    ensures Bare(t) ==> Bare(Upper(t))
  {
  }

  /** Cleaning a code or an action a second time changes nothing. */
  lemma CleanIsStable(t: string)
    ensures Clean(Clean(t)) == Clean(t)
  {
    Stripped(t);
    UpperAgain(Strip(t));
  }

  /** Six digits and an exchange. */
  predicate Standard(code: string) {
    && |code| == 9 && (forall i :: 0 <= i < 6 ==> '0' <= code[i] <= '9')
    && (code[6..] == ".SH" || code[6..] == ".SZ" || code[6..] == ".BJ")
  }

  function ActionOf(text: string): Option<Action> {
    if text == "BUY" then Some(Buy)
    else if text == "SELL" then Some(Sell)
    else if text == "WATCH" then Some(Watch)
    else None
  }

  // ---------------------------------------------------------------------------
  // One item of the returned list

  datatype RawText = NotGiven | Given(text: string)
  datatype RawNumber = Absent | Empty | NotNumeric | Numeric(value: real)
  datatype RawTime = NoTime | Unreadable | Readable(time: Stamp)

  /** `others` holds the fields that are passed on as they are. */
  datatype RawSignal = RawSignal(isDict: bool, symbol: RawText, action: RawText, price: RawNumber, reason: RawText,
                                 amount: RawNumber, time: RawTime, others: Signal)

  datatype SignalError =
    | NotDict | MissingField | UnknownAction | BadSymbol | PriceNotNumber | PriceNotPositive | AmountNotNumber
    | AmountNegative | NoReason | UnreadableTime | FutureSignal | OutOfTaskRange

  datatype Checked<T> = Accepted(value: T) | Rejected(error: SignalError)

  function TimeOf(raw: RawSignal, current: Day): Option<Stamp> {
    match raw.time
    case NoTime => Some(OnDay(current))
    case Unreadable => None
    case Readable(time) => if time.Unset? then None else Some(time)
  }

  function AmountOf(raw: RawSignal): Field {
    if raw.amount.Numeric? then Number(raw.amount.value) else Blank
  }

  /** A signal without a time belongs to the current day; a given amount of "" or null is no amount. */
  function ValidateSignal(raw: RawSignal, current: Day, start: Day, end: Day): Checked<Signal> {
    if !raw.isDict then Rejected(NotDict)
    else if raw.symbol.NotGiven? || raw.action.NotGiven? || raw.price.Absent? || raw.reason.NotGiven? then
      Rejected(MissingField)
    else if ActionOf(Clean(raw.action.text)).None? then Rejected(UnknownAction)
    else if !Standard(Clean(raw.symbol.text)) then Rejected(BadSymbol)
    else if !raw.price.Numeric? then Rejected(PriceNotNumber)
    else if raw.price.value <= 0.0 then Rejected(PriceNotPositive)
    else if raw.amount.NotNumeric? then Rejected(AmountNotNumber)
    else if raw.amount.Numeric? && raw.amount.value < 0.0 then Rejected(AmountNegative)
    else if Strip(raw.reason.text) == "" then Rejected(NoReason)
    else if TimeOf(raw, current).None? then Rejected(UnreadableTime)
    else
      var time := TimeOf(raw, current).value;
      if time.day > current then Rejected(FutureSignal)
      else if time.day < start || time.day > end then Rejected(OutOfTaskRange)
      else Accepted(raw.others.(symbol := Clean(raw.symbol.text), action := ActionOf(Clean(raw.action.text)).value,
                                amount := AmountOf(raw), time := time))
  }

  /** A standard code, no negative amount, dated within the backtest and no later than the day it was returned on. */
  ghost predicate Admissible(g: Signal, current: Day, start: Day, end: Day) {
    && Standard(g.symbol) && (g.amount.Number? ==> g.amount.value >= 0.0)
    && !g.time.Unset? && start <= g.time.day <= end && g.time.day <= current
  }

  /** The list is refused with the error of its first bad item. */
  ghost predicate FirstRejected(raws: seq<RawSignal>, current: Day, start: Day, end: Day, i: nat, error: SignalError) {
    && i < |raws| && ValidateSignal(raws[i], current, start, end) == Rejected(error)
    && forall j :: 0 <= j < i ==> ValidateSignal(raws[j], current, start, end).Accepted?
  }

  method ValidateSignals(raws: seq<RawSignal>, current: Day, start: Day, end: Day) returns (r: Checked<seq<Signal>>)
    ensures r.Accepted? ==> |r.value| == |raws| && forall i :: 0 <= i < |raws| ==>
              ValidateSignal(raws[i], current, start, end) == Accepted(r.value[i])
              && Admissible(r.value[i], current, start, end)
    ensures r.Rejected? ==> exists i :: FirstRejected(raws, current, start, end, i, r.error)
  {
    hide Standard, Clean, Strip, ActionOf;
    var signals: seq<Signal> := [];
    for i := 0 to |raws|
      invariant |signals| == i
      invariant forall j :: 0 <= j < i ==> ValidateSignal(raws[j], current, start, end) == Accepted(signals[j])
                                           && Admissible(signals[j], current, start, end)
    {
      var checked := ValidateSignal(raws[i], current, start, end);
      if checked.Rejected? {
        assert FirstRejected(raws, current, start, end, i, checked.error);
        return Rejected(checked.error);
      }
      signals := signals + [checked.value];
    }
    r := Accepted(signals);
  }
}
