/** TimerCard's formatTime: seconds as `minutes:ss`. */
module TimerCard {
  import opened Js

  /** JavaScript's `%` on integers: the remainder takes the dividend's sign. */
  function JsRemainder(a: int, b: int): (r: int)
    requires b > 0
    ensures a >= 0 ==> r == a % b
    ensures a < 0 ==> -b < r <= 0
  {
    if a >= 0 then a % b else -((-a) % b)
  }

  /** `${Math.floor(t / 60)}:${(t % 60).toString().padStart(2, "0")}`.
      For a positive divisor Dafny's `/` is floor division, as Math.floor is. */
  function FormatTime(totalSeconds: int): (r: string)
    ensures |r| >= 4
    // From zero on, ':' is followed by exactly two digits.
    ensures totalSeconds >= 0 ==> r[|r| - 3] == ':' && AllDigits(r[|r| - 2..])
  {
    var minutes := totalSeconds / 60;
    var seconds := JsRemainder(totalSeconds, 60);
    var s := IntString(minutes) + ":" + PadStart(IntString(seconds), 2, '0');
    if totalSeconds < 0 then s
    else
      SecondsTail(IntString(minutes), seconds);
      s
  }

  /** Any minutes field, ':' and a remainder below 60 padded to two places
      end in ':' and two digits. */
  lemma SecondsTail(m: string, sec: nat)
    requires sec < 60 && |m| > 0
    ensures var s := m + ":" + PadStart(IntString(sec), 2, '0');
            |s| >= 4 && s[|s| - 3] == ':' && AllDigits(s[|s| - 2..])
  {
    var d := IntString(sec);
    assert d == DecimalString(sec);
    SecondsField(sec);
    var pad := PadStart(d, 2, '0');
    assert |pad| == 2 && AllDigits(pad);
    var s := m + ":" + pad;
    assert s[|s| - 3] == ':';
    assert s[|s| - 2..] == pad;
  }

  /** Reads a `minutes:ss` string back into seconds. */
  function ReadTime(s: string): Option<int> {
    if |s| < 4 || s[|s| - 3] != ':' then None
    else match (ParseDecimal(s[..|s| - 3]), ParseDecimal(s[|s| - 2..]))
      case (Some(m), Some(sec)) => Some(m * 60 + sec)
      case _ => None
  }

  function CountChar(s: string, c: char): nat {
    if s == [] then 0 else CountChar(s[..|s| - 1], c) + (if s[|s| - 1] == c then 1 else 0)
  }

  lemma {:induction false} CountCharAppend(a: string, b: string, c: char)
    ensures CountChar(a + b, c) == CountChar(a, c) + CountChar(b, c)
    decreases |b|
  {
    if b == [] {
      assert a + b == a;
    } else {
      assert (a + b)[..|a + b| - 1] == a + b[..|b| - 1];
      CountCharAppend(a, b[..|b| - 1], c);
    }
  }

  predicate AllDigits(s: string) {
    forall i :: 0 <= i < |s| ==> IsDigit(s[i])
  }

  lemma {:induction false} NoCharInDigits(s: string, c: char)
    requires !IsDigit(c) && AllDigits(s)
    ensures CountChar(s, c) == 0
  {
    if s != [] {
      NoCharInDigits(s[..|s| - 1], c);
    }
  }

  /** The seconds field: a remainder below 60 padded to two digits, which
      read back to the remainder. */
  lemma SecondsField(sec: nat)
    requires sec < 60
    ensures var pad := PadStart(DecimalString(sec), 2, '0');
            |pad| == 2 && AllDigits(pad) && ParseDecimal(pad) == Some(sec)
  {
    ParseDecimalString(sec);
    var d := DecimalString(sec);
    if sec < 10 {
      var p := "0" + d;
      assert PadStart(d, 2, '0') == p;
      assert p[..|p| - 1] == "0";
    } else {
      assert sec / 10 < 10;
    }
  }

  /** A digit string, ':' and a two-digit string read back as minutes and seconds. */
  lemma ReadTimeOfFields(m: string, pad: string, minutes: nat, seconds: nat, total: int)
    requires AllDigits(m) && AllDigits(pad) && |m| > 0 && |pad| == 2
    requires ParseDecimal(m) == Some(minutes) && ParseDecimal(pad) == Some(seconds)
    requires total == minutes * 60 + seconds
    ensures var s := m + ":" + pad;
            && CountChar(s, ':') == 1
            && |s| >= 4 && s[|s| - 3] == ':'
            && s[|s| - 2..] == pad
            && ReadTime(s) == Some(total)
  {
    var s := m + ":" + pad;
    assert s[..|s| - 3] == m;
    assert s[|s| - 2..] == pad;
    NoCharInDigits(m, ':');
    NoCharInDigits(pad, ':');
    CountCharAppend(m, ":", ':');
    CountCharAppend(m + ":", pad, ':');
  }

  /** For a non-negative input the minutes are the quotient by 60 and the
      seconds the remainder, both written without a sign. */
  lemma FormatTimeFields(t: nat, q: nat, r: nat)
    requires q == t / 60 && r == t % 60
    ensures t == q * 60 + r && r < 60
    ensures FormatTime(t) == DecimalString(q) + ":" + PadStart(DecimalString(r), 2, '0')
  {
    assert JsRemainder(t, 60) == r;
    assert IntString(q) == DecimalString(q) && IntString(r) == DecimalString(r);
  }

  /** For a non-negative count of seconds the output has exactly one ':',
      the field after it is exactly two digits, and reading it back as
      minutes * 60 + seconds gives the input. */
  lemma FormatTimeReadBack(t: nat)
    ensures var s := FormatTime(t);
            && CountChar(s, ':') == 1
            && |s| >= 4 && s[|s| - 3] == ':'
            && |s[|s| - 2..]| == 2 && AllDigits(s[|s| - 2..])
            && ReadTime(s) == Some(t)
  {
    var q, r := t / 60, t % 60;
    FormatTimeFields(t, q, r);
    var m, pad := DecimalString(q), PadStart(DecimalString(r), 2, '0');
    SecondsField(r);
    ParseDecimalString(q);
    ReadTimeOfFields(m, pad, q, r, t);
  }
}
