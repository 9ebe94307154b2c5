/** What the handlers of the main window hand to the user, and the two pieces of
    C++/Qt arithmetic they rely on: `int` division and `QString::number`. */
module Presentation {

  /** Everything one handler shows besides widget values: the tray notifications
      it raises (`remindUser`) and the status-bar messages it posts, each in order. */
  datatype Output = Output(notices: seq<string>, messages: seq<string>)

  const Silent := Output([], [])

  /** The output of running one handler and then another. */
  function Then(a: Output, b: Output): Output
  {
    Output(a.notices + b.notices, a.messages + b.messages)
  }

  /** The texts the start buttons show. */
  datatype Caption = Start | Pause | Resume {
    function Text(): (t: string)
      ensures |t| >= 5
    {
      match this
      case Start => "Start"
      case Pause => "Pause"
      case Resume => "Resume"
    }
  }

  /** The three captions read differently, so what a button shows determines
      its caption. */
  lemma CaptionTextsDiffer(a: Caption, b: Caption)
    ensures a.Text() == b.Text() ==> a == b
  {
    if a != b {
      assert a.Text()[0] != b.Text()[0];
    }
  }

  /** A state of one of the machines together with what reaching it showed. */
  datatype Step<S> = Step(state: S, out: Output)

  /** The text the status bar holds after `o`, when it held `current` before. */
  function Shown(current: string, o: Output): (r: string)
    ensures o.messages == [] ==> r == current
    ensures o.messages != [] ==> r == o.messages[|o.messages| - 1]
  {
    if o.messages == [] then current else o.messages[|o.messages| - 1]
  }

  /** Showing `a` and then `b` leaves the status bar as showing both at once. */
  lemma ShownThen(current: string, a: Output, b: Output)
    ensures Shown(Shown(current, a), b) == Shown(current, Then(a, b))
  {
  }

  lemma Pair<T>(a: T, b: T)
    ensures [a] + [b] == [a, b]
  {
  }

  function Abs(x: int): nat
  {
    if x < 0 then -x else x
  }

  /** C++ `int` division, which truncates toward zero (Dafny's `/` is Euclidean). */
  function TruncDiv(a: int, b: int): (q: int)
    requires b != 0
    ensures 0 <= a && 0 < b ==> q == a / b
  {
    var m := Abs(a) / Abs(b);
    if (a < 0) == (b < 0) then m else -m
  }

  /** Truncation is odd in each operand, so with its first `ensures` it is fixed
      on all operands: `-7 / 2` is `-3` in C++ where Dafny's `/` gives `-4`. */
  lemma TruncDivSigns(a: int, b: int)
    requires b != 0
    ensures TruncDiv(-a, b) == -TruncDiv(a, b) && TruncDiv(a, -b) == -TruncDiv(a, b)
    ensures TruncDiv(-7, 2) == -3 && -7 / 2 == -4
  {
    assert Abs(-7) / Abs(2) == 3;
    assert Abs(-a) == Abs(a) && Abs(-b) == Abs(b);
    var m := Abs(a) / Abs(b);
    assert TruncDiv(a, b) == if (a < 0) == (b < 0) then m else -m;
    assert TruncDiv(-a, b) == if (-a < 0) == (b < 0) then m else -m;
    assert TruncDiv(a, -b) == if (a < 0) == (-b < 0) then m else -m;
    if a == 0 {
      assert m == 0 / Abs(b) == 0;
    }
  }

  function DigitChar(d: nat): char
    requires d < 10
  {
    ('0' as int + d) as char
  }

  /** The decimal digits of `n`, most significant first, without leading zeros. */
  function Digits(n: nat): (s: string)
    ensures |s| >= 1
    ensures forall i :: 0 <= i < |s| ==> '0' <= s[i] <= '9'
    ensures n >= 10 ==> s[0] != '0'
    decreases n
  {
    if n < 10 then [DigitChar(n)] else Digits(n / 10) + [DigitChar(n % 10)]
  }

  /** `QString::number(n)` for an `int`: a minus sign exactly for negative
      numbers, followed by decimal digits. */
  function Decimal(n: int): (s: string)
    ensures |s| >= 1 && (s[0] == '-' <==> n < 0)
    ensures forall i :: (if n < 0 then 1 else 0) <= i < |s| ==> '0' <= s[i] <= '9'
  {
    if n < 0 then "-" + Digits(-n) else Digits(n)
  }

  function DigitValue(c: char): nat
  {
    if '0' <= c <= '9' then (c as int - '0' as int) as nat else 0
  }

  /** Reads a string of decimal digits back as a number. */
  function ParseDigits(s: string): nat
  {
    if s == [] then 0 else 10 * ParseDigits(s[..|s| - 1]) + DigitValue(s[|s| - 1])
  }

  /** Reads back what `Decimal` writes. */
  function ParseDecimal(s: string): int
  {
    if |s| > 0 && s[0] == '-' then 0 - ParseDigits(s[1..]) else ParseDigits(s)
  }

  lemma {:induction false} DigitsRoundTrip(n: nat)
    ensures ParseDigits(Digits(n)) == n
    decreases n
  {
    if n >= 10 {
      var s := Digits(n);
      assert s[..|s| - 1] == Digits(n / 10);
      DigitsRoundTrip(n / 10);
    }
  }

  /** The label texts written from slider values determine those values. */
  lemma DecimalRoundTrip(n: int)
    ensures ParseDecimal(Decimal(n)) == n
  {
    if n < 0 {
      var d := Digits(-n);
      DigitsRoundTrip(-n);
      SignedRoundTrip(d);
      assert Decimal(n) == "-" + d;
      assert ParseDecimal(Decimal(n)) == 0 - ParseDigits(d);
    } else {
      var d := Digits(n);
      DigitsRoundTrip(n);
      UnsignedRoundTrip(d);
      assert Decimal(n) == d;
      assert ParseDecimal(Decimal(n)) == ParseDigits(d);
    }
  }

  lemma SignedRoundTrip(d: string)
    ensures ParseDecimal("-" + d) == 0 - ParseDigits(d)
  {
    assert ("-" + d)[1..] == d;
  }

  lemma UnsignedRoundTrip(d: string)
    requires |d| >= 1 && '0' <= d[0] <= '9'
    ensures ParseDecimal(d) == ParseDigits(d)
  {
  }
}
