/**
 Version numbers: an integer Lamport counter plus a decimal fraction taken from the server's id.
 Floating point is abstracted to exact reals.
 */
module Lamport {

  datatype Option<+T> = None | Some(value: T)

  /******* Server ids as decimal fractions *******/

  const MAX_INT64 := 0x7FFF_FFFF_FFFF_FFFF
  const MIN_INT64 := -0x8000_0000_0000_0000

  predicate Digits(s: string) {
    forall i | 0 <= i < |s| :: '0' <= s[i] <= '9'
  }

  function Digit(c: char): (d: int)
    requires '0' <= c <= '9'
    ensures 0 <= d <= 9
  {
    c as int - '0' as int
  }

  /** The number a digit string denotes, accumulated from the left as the parser does. */
  function Natural(s: string): nat
    requires Digits(s)
  {
    if s == "" then 0 else 10 * Natural(s[..|s| - 1]) + Digit(s[|s| - 1])
  }

  /** `strconv.Atoi` on a 64-bit machine: an optional sign, at least one digit, no overflow. */
  function Atoi(s: string): Option<int> {
    var signed := s != "" && (s[0] == '+' || s[0] == '-');
    var body := if signed then s[1..] else s;
    if body == "" || !Digits(body) then None
    else
      var magnitude: int := Natural(body);
      var n := if signed && s[0] == '-' then -magnitude else magnitude;
      if MIN_INT64 <= n <= MAX_INT64 then Some(n) else None
  }

  function Pow10(n: nat): (p: int)
    ensures p >= 1
  {
    if n == 0 then 1 else 10 * Pow10(n - 1)
  }

  /** What an id adds to a sequence number; a server whose id is not an integer never starts. */
  function IdOffset(id: string): real {
    match Atoi(id)
    case Some(n) => n as real / Pow10(|id|) as real
    case None => 0.0
  }

  /** None is the panic on an id that is not an integer. */
  function GetLamportTimestampFromSeqnum(seqnum: int, id: string): Option<real> {
    if Atoi(id).None? then None else Some(seqnum as real + IdOffset(id))
  }

  /** A digit string read as the digits after a decimal point. */
  function Decimal(s: string): (r: real)
    requires Digits(s)
    ensures 0.0 <= r < 1.0
  {
    if s == "" then 0.0 else (Digit(s[0]) as real + Decimal(s[1..])) / 10.0
  }

  /** Division by a power of ten, one digit at a time. */
  function Shift(x: real, n: nat): real {
    if n == 0 then x else Shift(x, n - 1) / 10.0
  }

  lemma DivideTwice(x: real, b: int)
    requires b > 0
    ensures x / (10 * b) as real == x / b as real / 10.0
  {
    var q := x / b as real;
    assert q * b as real == x;
    assert q / 10.0 * (10.0 * b as real) == x;
    assert (10 * b) as real == 10.0 * b as real;
  }

  lemma {:induction false} ShiftDivides(x: real, n: nat)
    ensures x / Pow10(n) as real == Shift(x, n)
  {
    if n > 0 {
      ShiftDivides(x, n - 1);
      DivideTwice(x, Pow10(n - 1));
    }
  }

  lemma {:induction false} ShiftLinear(x: real, y: real, n: nat)
    ensures Shift(10.0 * x + y, n + 1) == Shift(x, n) + Shift(y, n + 1)
  {
    if n > 0 {
      ShiftLinear(x, y, n - 1);
    }
  }

  lemma {:induction false} DecimalSnoc(s: string, c: char)
    requires Digits(s) && '0' <= c <= '9'
    ensures Digits(s + [c]) && Decimal(s + [c]) == Decimal(s) + Shift(Digit(c) as real, |s| + 1)
  {
    if s == "" {
      assert ([c])[1..] == "" && "" + [c] == [c];
      assert Shift(Digit(c) as real, 0) == Digit(c) as real;
    } else {
      DecimalSnoc(s[1..], c);
      assert (s + [c])[1..] == s[1..] + [c];
    }
  }

  lemma {:induction false} DecimalIsShift(s: string)
    requires Digits(s)
    ensures Decimal(s) == Shift(Natural(s) as real, |s|)
  {
    if s != "" {
      var front, c := s[..|s| - 1], s[|s| - 1];
      DecimalIsShift(front);
      DecimalSnoc(front, c);
      assert front + [c] == s;
      ShiftLinear(Natural(front) as real, Digit(c) as real, |front|);
      assert Natural(s) as real == 10.0 * Natural(front) as real + Digit(c) as real;
    }
  }

  lemma {:induction false} NaturalBelowPow10(s: string)
    requires Digits(s)
    ensures Natural(s) < Pow10(|s|)
  {
    if s != "" {
      NaturalBelowPow10(s[..|s| - 1]);
    }
  }

  lemma QuotientBounds(a: int, b: int)
    requires b > 0 && -b < a < b
    ensures -1.0 < a as real / b as real < 1.0
    ensures a as real / b as real >= 0.0 <==> a >= 0
  {
  }

  lemma OffsetBounds(id: string)
    ensures -1.0 < IdOffset(id) < 1.0
    ensures Atoi(id).Some? ==> (IdOffset(id) >= 0.0 <==> Atoi(id).value >= 0)
  {
    if Atoi(id).Some? { ParsedOffsetBounds(id); }
  }

  lemma ParsedOffsetBounds(id: string)
    requires Atoi(id).Some?
    ensures -1.0 < IdOffset(id) < 1.0
    ensures IdOffset(id) >= 0.0 <==> Atoi(id).value >= 0
  {
    var signed := id[0] == '+' || id[0] == '-';
    var body := if signed then id[1..] else id;
    NaturalBelowPow10(body);
    if signed { assert Pow10(|id|) == 10 * Pow10(|body|); }
    QuotientBounds(Atoi(id).value, Pow10(|id|));
  }

  /** The floor of a timestamp gives back the sequence number exactly when the id is not negative. */
  lemma FloorRecoversSeqnum(seqnum: int, id: string)
    requires Atoi(id).Some?
    ensures GetLamportTimestampFromSeqnum(seqnum, id).value.Floor == seqnum <==> Atoi(id).value >= 0
  {
    OffsetBounds(id);
  }

  lemma UnsignedOffset(id: string)
    requires Digits(id) && Atoi(id).Some?
    ensures IdOffset(id) == Decimal(id) && 0.0 <= IdOffset(id) < 1.0
  {
    DecimalIsShift(id);
    ShiftDivides(Natural(id) as real, |id|);
  }

  /** Which ids are integers: digits, perhaps after a sign, within 64 bits. */
  lemma SignedParses(sign: char, digits: string)
    requires sign == '+' || sign == '-'
    ensures Atoi([sign] + digits).Some?
            <==> digits != "" && Digits(digits)
                 && Natural(digits) <= if sign == '-' then 0x8000_0000_0000_0000 else 0x7FFF_FFFF_FFFF_FFFF
    ensures Atoi([sign] + digits).Some? ==>
              Atoi([sign] + digits).value == if sign == '-' then 0 - Natural(digits) else Natural(digits)
  {
    assert ([sign] + digits)[1..] == digits;
  }

  lemma UnsignedParses(s: string)
    requires s == "" || (s[0] != '+' && s[0] != '-')
    ensures Atoi(s).Some? <==> s != "" && Digits(s) && Natural(s) <= 0x7FFF_FFFF_FFFF_FFFF
    ensures Atoi(s).Some? ==> Atoi(s).value == Natural(s)
  {
  }

  /** A signed id is shorter by its sign: its digits are read one place further right. */
  lemma SignedOffset(sign: char, digits: string)
    requires (sign == '+' || sign == '-') && Digits(digits) && Atoi([sign] + digits).Some?
    ensures IdOffset([sign] + digits) == if sign == '-' then -(Decimal(digits) / 10.0) else Decimal(digits) / 10.0
  {
    var id, n: int := [sign] + digits, Natural(digits);
    assert id[1..] == digits;
    SignedParses(sign, digits);
    DecimalIsShift(digits);
    ShiftDivides(n as real, |digits|);
    DivideTwice(n as real, Pow10(|digits|));
    assert Pow10(|id|) == 10 * Pow10(|digits|);
    if sign == '-' { NegatedQuotient(n, Pow10(|id|)); }
  }

  lemma NegatedQuotient(a: int, b: int)
    requires b > 0
    ensures (-a) as real / b as real == -(a as real / b as real)
  {
    var q := a as real / b as real;
    assert q * b as real == a as real && (-q) * b as real == (-a) as real;
  }

  function StripZeros(s: string): (t: string)
    ensures t <= s
    ensures t != "" ==> t[|t| - 1] != '0'
  {
    if s != "" && s[|s| - 1] == '0' then StripZeros(s[..|s| - 1]) else s
  }

  lemma {:induction false} ShiftZero(n: nat)
    ensures Shift(0.0, n) == 0.0
  {
    if n > 0 {
      ShiftZero(n - 1);
    }
  }

  lemma {:induction false} StripKeepsDecimal(s: string)
    requires Digits(s)
    ensures Digits(StripZeros(s)) && Decimal(StripZeros(s)) == Decimal(s)
  {
    if s != "" && s[|s| - 1] == '0' {
      var front := s[..|s| - 1];
      StripKeepsDecimal(front);
      DecimalSnoc(front, '0');
      ShiftZero(|s|);
      assert front + ['0'] == s;
    }
  }

  lemma {:induction false} StrippedIsPositive(s: string)
    requires Digits(s) && s != "" && s[|s| - 1] != '0'
    ensures Decimal(s) > 0.0
  {
    if |s| > 1 {
      StrippedIsPositive(s[1..]);
    }
  }

  lemma {:induction false} StrippedDecimalInjective(a: string, b: string)
    requires Digits(a) && Digits(b)
    requires a != "" ==> a[|a| - 1] != '0'
    requires b != "" ==> b[|b| - 1] != '0'
    requires Decimal(a) == Decimal(b)
    ensures a == b
  {
    if a == "" || b == "" {
      if a != "" { StrippedIsPositive(a); }
      if b != "" { StrippedIsPositive(b); }
    } else {
      var x, y := Decimal(a[1..]), Decimal(b[1..]);
      assert Digit(a[0]) as real + x == Digit(b[0]) as real + y;
      assert Digit(a[0]) == Digit(b[0]);
      assert a[0] == b[0];
      StrippedDecimalInjective(a[1..], b[1..]);
      assert a == [a[0]] + a[1..] && b == [b[0]] + b[1..];
    }
  }

  /** Two digit-string ids share a fraction exactly when they agree up to trailing zeros. */
  lemma SameFractionIff(a: string, b: string)
    requires Digits(a) && Digits(b) && Atoi(a).Some? && Atoi(b).Some?
    ensures IdOffset(a) == IdOffset(b) <==> StripZeros(a) == StripZeros(b)
  {
    UnsignedOffset(a);
    UnsignedOffset(b);
    StripKeepsDecimal(a);
    StripKeepsDecimal(b);
    if IdOffset(a) == IdOffset(b) {
      StrippedDecimalInjective(StripZeros(a), StripZeros(b));
    }
  }

  /******* The clock *******/

  function Frac(x: real): (f: real)
    ensures 0.0 <= f < 1.0
  {
    x - x.Floor as real
  }

  lemma FloorUnique(x: real, m: int)
    requires m as real <= x < m as real + 1.0
    ensures x.Floor == m
  {
  }

  lemma FracShift(x: real, n: int)
    ensures Frac(x + n as real) == Frac(x)
  {
    assert (x.Floor + n) as real == x.Floor as real + n as real;
    FloorUnique(x + n as real, x.Floor + n);
  }

  /** `math.Ceil` */
  function Ceil(x: real): int {
    -((-x).Floor)
  }

  function ConditionalIncrement(clock: real, pivot: real): real {
    var difference := clock + 1.0 - pivot;
    if difference > 0.0 then clock + 1.0 else clock + (1.0 + Ceil(difference) as real)
  }

  lemma CeilBounds(x: real)
    ensures Ceil(x) as real - 1.0 < x <= Ceil(x) as real
  {
  }

  /** The allocator's result is above the pivot exactly when the pivot is below the next tick, and at
      least the pivot exactly when it is at most the next tick. From two ticks ahead the clock stalls,
      from three ticks ahead it runs backwards. */
  lemma ConditionalIncrementExact(clock: real, pivot: real)
    ensures ConditionalIncrement(clock, pivot) > pivot <==> pivot < clock + 1.0
    ensures ConditionalIncrement(clock, pivot) >= pivot <==> pivot <= clock + 1.0
    ensures ConditionalIncrement(clock, pivot) == clock + 1.0 <==> pivot < clock + 2.0
    ensures ConditionalIncrement(clock, pivot) > clock <==> pivot < clock + 2.0
    ensures ConditionalIncrement(clock, pivot) < clock <==> pivot >= clock + 3.0
  {
    var difference := clock + 1.0 - pivot;
    var up := Ceil(difference);
    CeilBounds(difference);
    if difference <= 0.0 {
      assert up <= 0;
      if difference == 0.0 { assert up == 0; }
      else if difference > -1.0 { assert up == 0; }
      else if difference > -2.0 { assert up == -1; }
      else { assert up <= -2; }
    }
  }

  /** A pivot at or above the next tick costs one tick for each whole tick that it is above it. */
  lemma ConditionalIncrementWhenLagging(clock: real, pivot: real)
    requires pivot >= clock + 1.0
    ensures var lost := clock + 1.0 - ConditionalIncrement(clock, pivot);
      0.0 <= lost <= pivot - (clock + 1.0) < lost + 1.0 && lost.Floor as real == lost
  {
    var ahead := pivot - clock - 1.0;
    assert clock + 1.0 - pivot == -ahead && -(-ahead) == ahead;
    assert clock + 1.0 - ConditionalIncrement(clock, pivot) == ahead.Floor as real;
  }

  lemma FloorAtMost(x: real, n: int)
    ensures x.Floor <= n <==> x < n as real + 1.0
  {
  }

  lemma IncrementAtLeast(clock: real, pivot: real, low: int)
    ensures ConditionalIncrement(clock, pivot) >= low as real
            <==> if pivot < clock + 1.0 then low as real <= clock + 1.0
                 else pivot < clock + clock.Floor as real + (3 - low) as real
  {
    if pivot >= clock + 1.0 {
      var ahead, n := pivot - clock - 1.0, clock.Floor + 1 - low;
      assert clock + 1.0 - pivot == -ahead && -(-ahead) == ahead;
      assert ConditionalIncrement(clock, pivot) == clock + (1 - ahead.Floor) as real;
      FloorAtMost(ahead, n);
      assert n as real == clock.Floor as real + (1 - low) as real;
      assert ahead.Floor <= n <==> (low - 1 + ahead.Floor) as real <= clock;
    }
  }

  lemma ConditionalIncrementKeepsFraction(clock: real, pivot: real)
    ensures Frac(ConditionalIncrement(clock, pivot)) == Frac(clock)
  {
    var up := Ceil(clock + 1.0 - pivot);
    FracShift(clock, 1);
    FracShift(clock, 1 + up);
    assert (1 + up) as real == 1.0 + up as real;
  }

  /** One entry of a heartbeat: the sender's counter with this server's own fraction. */
  function ReceiveClock(clock: real, id: string, sent: real): real
  {
    var rebuilt := sent.Floor as real + IdOffset(id);
    (if rebuilt > clock then rebuilt else clock) + 1.0
  }

  /** A whole heartbeat, entry by entry. */
  function ReceiveClocks(clock: real, id: string, sent: seq<real>): real
    decreases |sent|
  {
    if sent == [] then clock
    else ReceiveClocks(ReceiveClock(clock, id, sent[0]), id, sent[1..])
  }

  lemma {:induction false} ReceiveClocksSnoc(clock: real, id: string, sent: seq<real>, x: real)
    ensures ReceiveClocks(clock, id, sent + [x]) == ReceiveClock(ReceiveClocks(clock, id, sent), id, x)
    decreases |sent|
  {
    if sent == [] {
      assert ([x])[1..] == [];
    } else {
      assert (sent + [x])[1..] == sent[1..] + [x];
      ReceiveClocksSnoc(ReceiveClock(clock, id, sent[0]), id, sent[1..], x);
    }
  }

  lemma {:induction false} ReceiveAdvances(clock: real, id: string, sent: seq<real>)
    ensures ReceiveClocks(clock, id, sent) >= clock + |sent| as real
    decreases |sent|
  {
    if sent != [] {
      ReceiveAdvances(ReceiveClock(clock, id, sent[0]), id, sent[1..]);
    }
  }

  /** How far below a sent clock the receive rule can leave a server: nothing unless its id is negative. */
  function Shortfall(id: string): (r: real)
    ensures 0.0 <= r < 1.0
    ensures Atoi(id).Some? ==> (r == 0.0 <==> Atoi(id).value >= 0)
  {
    OffsetBounds(id);
    if IdOffset(id) < 0.0 then -IdOffset(id) else 0.0
  }

  /** Lamport's receive rule over a whole list: the clock ends above every clock in it, short by less
      than one tick if the server's id is negative. */
  lemma {:induction false} ReceiveRule(clock: real, id: string, sent: seq<real>)
    ensures ReceiveClocks(clock, id, sent) >= clock + |sent| as real
    ensures forall i | 0 <= i < |sent| :: ReceiveClocks(clock, id, sent) > sent[i] - Shortfall(id)
    decreases |sent|
  {
    ReceiveAdvances(clock, id, sent);
    if sent != [] {
      var next := ReceiveClock(clock, id, sent[0]);
      ReceiveRule(next, id, sent[1..]);
      ReceiveAdvances(next, id, sent[1..]);
      assert next > sent[0] - Shortfall(id);
      forall i | 0 <= i < |sent| ensures ReceiveClocks(clock, id, sent) > sent[i] - Shortfall(id) {
        if i > 0 { assert sent[i] == sent[1..][i - 1]; }
      }
    }
  }

  /** Where the i-th of n sent clocks would bring a server: to its counter with the server's fraction, and
      one tick on for each entry from it to the end of the list. */
  function BroughtTo(id: string, sent: seq<real>, i: nat): real
    requires i < |sent|
  {
    sent[i].Floor as real + IdOffset(id) + (|sent| - i) as real
  }

  /** The clock after a heartbeat, in closed form: the greatest of where each sent clock would bring the
      server and of its own clock with a tick for each entry. */
  lemma {:induction false} ReceiveClosedForm(clock: real, id: string, sent: seq<real>)
    ensures ReceiveClocks(clock, id, sent) >= clock + |sent| as real
    ensures forall i | 0 <= i < |sent| :: ReceiveClocks(clock, id, sent) >= BroughtTo(id, sent, i)
    ensures ReceiveClocks(clock, id, sent) == clock + |sent| as real
            || exists i :: 0 <= i < |sent| && ReceiveClocks(clock, id, sent) == BroughtTo(id, sent, i)
    decreases |sent|
  {
    if sent != [] {
      var next, rest := ReceiveClock(clock, id, sent[0]), sent[1..];
      ReceiveClosedForm(next, id, rest);
      forall i | 0 <= i < |rest| ensures BroughtTo(id, rest, i) == BroughtTo(id, sent, i + 1) {
      }
      forall i | 0 <= i < |sent| ensures ReceiveClocks(clock, id, sent) >= BroughtTo(id, sent, i) {
        if i > 0 { assert BroughtTo(id, rest, i - 1) == BroughtTo(id, sent, i); }
      }
      if ReceiveClocks(clock, id, sent) != clock + |sent| as real {
        if i :| 0 <= i < |rest| && ReceiveClocks(next, id, rest) == BroughtTo(id, rest, i) {
          assert ReceiveClocks(clock, id, sent) == BroughtTo(id, sent, i + 1);
        } else {
          assert ReceiveClocks(clock, id, sent) == BroughtTo(id, sent, 0);
        }
      }
    }
  }

  ghost predicate AboveAll(clock: real, id: string, sent: seq<real>) {
    forall i | 0 <= i < |sent| :: ReceiveClocks(clock, id, sent) > sent[i]
  }

  /** A server with a negative id can be sent a clock that it then equals. */
  lemma ReceiveRuleFails(id: string)
    requires Atoi(id).Some? && Atoi(id).value < 0
    ensures !AboveAll(1.0 + IdOffset(id), id, [2.0 + IdOffset(id)])
  {
    OffsetBounds(id);
    var sent := 2.0 + IdOffset(id);
    FloorUnique(sent, 1);
    assert [sent][1..] == [];
    assert ReceiveClocks(1.0 + IdOffset(id), id, [sent]) == ReceiveClock(1.0 + IdOffset(id), id, sent);
    assert ReceiveClocks(1.0 + IdOffset(id), id, [sent]) == [sent][0];
  }

  /** The receiver ends above every clock it is sent, whatever the list and its own clock, exactly when
      its id is not negative. */
  lemma ReceiveRuleIff(id: string)
    requires Atoi(id).Some?
    ensures (forall clock, sent :: AboveAll(clock, id, sent)) <==> Atoi(id).value >= 0
  {
    if Atoi(id).value >= 0 {
      forall clock, sent ensures AboveAll(clock, id, sent) {
        ReceiveRule(clock, id, sent);
      }
    } else {
      ReceiveRuleFails(id);
    }
  }

  /** The fraction of a server's versions. */
  function IdFraction(id: string): real
  {
    Frac(IdOffset(id))
  }

  lemma DigitsOf(a: char, b: char)
    requires '0' <= a <= '9' && '0' <= b <= '9'
    ensures Natural([a]) == Digit(a) && Natural([a, b]) == 10 * Digit(a) + Digit(b)
  {
    assert [a][..0] == [] && [a, b][..1] == [a];
  }

  /** Ids that share a fraction: one is the other with a trailing zero, or a negative one and its
      complement. */
  lemma SharedFractions()
    ensures Atoi("1").Some? && Atoi("10").Some? && IdFraction("1") == IdFraction("10") == 0.1
    ensures Atoi("-5").Some? && Atoi("95").Some? && IdFraction("-5") == IdFraction("95") == 0.95
  {
    DigitsOf('1', '0');
    DigitsOf('9', '5');
    DigitsOf('5', '0');
    assert "-5"[1..] == "5";
    assert Pow10(1) == 10 && Pow10(2) == 100;
    FloorUnique(-0.05, -1);
  }

  lemma TimestampFraction(seqnum: int, id: string)
    requires Atoi(id).Some?
    ensures Frac(GetLamportTimestampFromSeqnum(seqnum, id).value) == IdFraction(id)
  {
    FracShift(IdOffset(id), seqnum);
  }

  lemma {:induction false} ReceiveKeepsFraction(clock: real, id: string, sent: seq<real>)
    requires Frac(clock) == IdFraction(id)
    ensures Frac(ReceiveClocks(clock, id, sent)) == IdFraction(id)
    decreases |sent|
  {
    if sent != [] {
      FracShift(IdOffset(id), sent[0].Floor + 1);
      FracShift(clock, 1);
      ReceiveKeepsFraction(ReceiveClock(clock, id, sent[0]), id, sent[1..]);
    }
  }
}
