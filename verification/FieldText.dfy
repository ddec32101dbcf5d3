/** How trace payload fields are printed: escaped strings and binary integers. */
module FieldText {
  import opened RequestKeys
  import opened Modular
  import opened Wrappers

  predicate IsControl(c: char) { c as int < 32 || c as int == 127 }

  const HEX := "0123456789abcdef"

  function EscapeChar(c: char): string {
    if c in "\\'\"?" then ['\\', c]
    else if !IsControl(c) then [c]
    else match c as int
      case 0 => "\\0"
      case 7 => "\\a"
      case 8 => "\\b"
      case 27 => "\\e"
      case 12 => "\\f"
      case 10 => "\\n"
      case 13 => "\\r"
      case 9 => "\\t"
      case 11 => "\\v"
      case n => ['\\', 'x', HEX[n / 16], HEX[n % 16]]
  }

  function Escape(text: string): string {
    if text == [] then [] else EscapeChar(text[0]) + Escape(text[1..])
  }

  /** Appends the escaped text to a result buffer, a character at a time. */
  method ParseString(text: string, buffer: string) returns (result: string)
    ensures result == buffer + Escape(text)
  {
    result := buffer;
    for i := 0 to |text|
      invariant result + Escape(text[i..]) == buffer + Escape(text)
    {
      assert text[i..][1..] == text[i + 1..];
      assert result + (EscapeChar(text[i]) + Escape(text[i + 1..]))
          == result + EscapeChar(text[i]) + Escape(text[i + 1..]);
      result := result + EscapeChar(text[i]);
    }
  }

  function HexValue(c: char): Option<nat> {
    if '0' <= c <= '9' then Some(c as int - '0' as int)
    else if 'a' <= c <= 'f' then Some(c as int - 'a' as int + 10)
    else None
  }

  /** The character a printed text starts with, and the length of its printed form. */
  function FirstChar(s: string): Option<(char, nat)>
    requires s != []
    ensures FirstChar(s).Some? ==> 0 < FirstChar(s).value.1 <= |s|
  {
    if s[0] != '\\' then Some((s[0], 1))
    else if |s| == 1 then None
    else if s[1] in "\\'\"?" then Some((s[1], 2))
    else match s[1]
      case '0' => Some((0 as char, 2))
      case 'a' => Some((7 as char, 2))
      case 'b' => Some((8 as char, 2))
      case 'e' => Some((27 as char, 2))
      case 'f' => Some((12 as char, 2))
      case 'n' => Some((10 as char, 2))
      case 'r' => Some((13 as char, 2))
      case 't' => Some((9 as char, 2))
      case 'v' => Some((11 as char, 2))
      case 'x' =>
        if |s| < 4 || HexValue(s[2]).None? || HexValue(s[3]).None? then None
        else Some(((16 * HexValue(s[2]).value + HexValue(s[3]).value) as char, 4))
      case _ => None
  }

  function Unescape(s: string): Option<string>
    decreases |s|
  {
    if s == [] then Some([]) else
    var first := FirstChar(s);
    if first.None? then None else
    var rest := Unescape(s[first.value.1..]);
    if rest.None? then None else Some([first.value.0] + rest.value)
  }

  lemma FirstCharOfEscaped(c: char, rest: string)
    ensures FirstChar(EscapeChar(c) + rest) == Some((c, |EscapeChar(c)|))
  {
    if |EscapeChar(c)| == 4 {
      HexDigit(c as int / 16);
      HexDigit(c as int % 16);
    }
  }

  lemma HexDigit(d: nat)
    requires d < 16
    ensures HexValue(HEX[d]) == Some(d)
  {
  }

  /** Printing loses nothing: every string can be read back from its printed form. */
  lemma {:induction false} UnescapeEscape(text: string)
    ensures Unescape(Escape(text)) == Some(text)
  {
    if text != [] {
      var head, tail := EscapeChar(text[0]), Escape(text[1..]);
      FirstCharOfEscaped(text[0], tail);
      assert (head + tail)[|head|..] == tail;
      UnescapeEscape(text[1..]);
      assert Unescape(head + tail) == Some([text[0]] + text[1..]);
      assert [text[0]] + text[1..] == text;
    }
  }

  /** So two strings never print alike. */
  lemma EscapeInjective(a: string, b: string)
    requires Escape(a) == Escape(b)
    ensures a == b
  {
    UnescapeEscape(a);
    UnescapeEscape(b);
  }

  /** Printed text has no control characters. */
  lemma {:induction false} EscapedIsPrintable(text: string, i: nat)
    requires i < |Escape(text)|
    ensures 32 <= Escape(text)[i] as int != 127
  {
    var head := EscapeChar(text[0]);
    if i >= |head| {
      EscapedIsPrintable(text[1..], i - |head|);
    }
  }

  lemma {:induction false} EscapeAppends(a: string, b: string)
    ensures Escape(a + b) == Escape(a) + Escape(b)
  {
    if a == [] {
      assert a + b == b;
    } else {
      assert (a + b)[1..] == a[1..] + b;
      EscapeAppends(a[1..], b);
    }
  }

  /** The printed forms, as C writes such characters. */
  lemma PrintedQuotes()
    ensures Escape(['\\']) == ['\\', '\\'] && Escape(['\'']) == ['\\', '\'']
    ensures Escape(['\"']) == ['\\', '\"'] && Escape(['?']) == ['\\', '?']
  {
    EscapeOne('\\');
    EscapeOne('\'');
    EscapeOne('\"');
    EscapeOne('?');
    hide Escape;
  }

  lemma PrintedControls()
    ensures Escape([7 as char]) == ['\\', 'a'] && Escape([8 as char]) == ['\\', 'b']
    ensures Escape([27 as char]) == ['\\', 'e'] && Escape([12 as char]) == ['\\', 'f']
    ensures Escape(['\n']) == ['\\', 'n'] && Escape(['\r']) == ['\\', 'r']
    ensures Escape(['\t']) == ['\\', 't'] && Escape([11 as char]) == ['\\', 'v']
  {
    EscapeOne(7 as char);
    EscapeOne(8 as char);
    EscapeOne(27 as char);
    EscapeOne(12 as char);
    EscapeOne('\n');
    EscapeOne('\r');
    EscapeOne('\t');
    EscapeOne(11 as char);
    hide Escape;
  }

  /** Other control characters are printed as two hexadecimal digits, in lower case. */
  lemma PrintedHex(n: int)
    requires (1 <= n < 32 && n !in [7, 8, 9, 10, 11, 12, 13, 27]) || n == 127
    ensures Escape([n as char]) == ['\\', 'x', "0123456789abcdef"[n / 16], "0123456789abcdef"[n % 16]]
  {
    EscapeOne(n as char);
    hide Escape;
  }

  lemma EscapeOne(c: char)
    ensures Escape([c]) == EscapeChar(c)
  {
    assert [c][1..] == [];
    assert EscapeChar(c) + [] == EscapeChar(c);
  }

  predicate Plain(c: char) { !IsControl(c) && c !in "\\'\"?" }

  lemma {:induction false} EscapeLength(text: string)
    ensures |Escape(text)| >= |text|
    ensures |Escape(text)| == |text| <==> forall i :: 0 <= i < |text| ==> Plain(text[i])
  {
    if text != [] {
      EscapeLength(text[1..]);
      assert forall i :: 0 < i < |text| ==> text[i] == text[1..][i - 1];
    }
  }

  lemma {:induction false} EscapeOfPlain(text: string)
    requires forall i :: 0 <= i < |text| ==> Plain(text[i])
    ensures Escape(text) == text
  {
    if text != [] {
      EscapeOfPlain(text[1..]);
    }
  }

  /** Exactly the strings without special characters are printed unchanged. */
  lemma {:induction false} EscapeUnchanged(text: string)
    ensures Escape(text) == text <==> forall i :: 0 <= i < |text| ==>
      32 <= text[i] as int != 127 && text[i] !in "\\'\"?"
  {
    assert forall c :: Plain(c) <==> 32 <= c as int != 127 && c !in "\\'\"?";
    EscapeLength(text);
    if forall i :: 0 <= i < |text| ==> Plain(text[i]) {
      EscapeOfPlain(text);
    }
  }

  // Binary integers

  const TOP_BIT := 0x8000_0000_0000_0000

  function Pow2(n: nat): (p: nat)
    ensures p > 0
  {
    if n == 0 then 1 else 2 * Pow2(n - 1)
  }

  lemma {:induction false} Pow2Adds(m: nat, n: nat)
    ensures Pow2(m + n) == Pow2(m) * Pow2(n)
  {
    if m > 0 {
      Pow2Adds(m - 1, n);
    }
  }

  lemma Pow2At64()
    ensures Pow2(64) == TWO_64
  {
    assert Pow2(4) == 16;
    Pow2Adds(4, 4);
    Pow2Adds(8, 8);
    Pow2Adds(16, 16);
    Pow2Adds(32, 32);
  }

  /** A 64-bit left shift by fewer than 64 bits. */
  function ShiftLeft(v: u64, shift: nat): u64
    requires shift < 64
  {
    v * Pow2(shift) % TWO_64
  }

  /** The shift macro for any amount: repeated shifts by 63, then one by what is left. */
  method SafeShiftLeft(v: u64, shift: nat) returns (r: u64)
    ensures r == v * Pow2(shift) % TWO_64
  {
    var partialShifts, leftoverBits := shift / 63, shift % 63;
    r := v;
    ghost var done: nat := 0;
    assert v * Pow2(0) % TWO_64 == v;
    while partialShifts > 0
      invariant partialShifts >= 0 && done + 63 * partialShifts + leftoverBits == shift
      invariant r == v * Pow2(done) % TWO_64
    {
      ShiftComposes(v, done, 63);
      r := ShiftLeft(r, 63);
      done := done + 63;
      partialShifts := partialShifts - 1;
    }
    ShiftComposes(v, done, leftoverBits);
    r := ShiftLeft(r, leftoverBits);
  }

  lemma ShiftComposes(v: u64, m: nat, n: nat)
    requires n < 64
    ensures ShiftLeft(v * Pow2(m) % TWO_64, n) == v * Pow2(m + n) % TWO_64
  {
    Pow2Adds(m, n);
    ModTimes(v * Pow2(m), Pow2(n), TWO_64);
    assert v * Pow2(m) * Pow2(n) == v * (Pow2(m) * Pow2(n));
  }

  /** The number that a string of binary digits stands for. */
  function ReadBinary(digits: string): nat {
    if digits == [] then 0
    else 2 * ReadBinary(digits[..|digits| - 1]) + if digits[|digits| - 1] == '1' then 1 else 0
  }

  /** Digits are read from the most significant one on. */
  lemma ReadOneMore(digits: string)
    ensures ReadBinary("") == 0
    ensures ReadBinary(digits + "0") == 2 * ReadBinary(digits)
    ensures ReadBinary(digits + "1") == 2 * ReadBinary(digits) + 1
  {
    assert (digits + "0")[..|digits|] == digits && (digits + "1")[..|digits|] == digits;
  }

  lemma {:induction false} ReadBinaryBound(digits: string)
    ensures ReadBinary(digits) < Pow2(|digits|)
  {
    if digits != [] {
      ReadBinaryBound(digits[..|digits| - 1]);
    }
  }

  /**
   * The binary branch of integer printing appends a prefix and `length` digits, which read back as the value's
   * low bits. The trace library's integers have at most 64 bits.
   */
  method PrintBinary(value: u64, length: nat, buffer: string) returns (result: string)
    requires length <= 64
    ensures buffer + "0b" <= result
    ensures
      var digits := result[|buffer + "0b"|..];
      && |digits| == length && (forall i :: 0 <= i < length ==> digits[i] in "01")
      && ReadBinary(digits) == value % Pow2(length)
  {
    var v: u64 := SafeShiftLeft(value, 64 - length);
    ghost var top := v;
    var digits := [];
    for bit := 0 to length
      invariant |digits| == bit && forall i :: 0 <= i < bit ==> digits[i] in "01"
      invariant top * Pow2(bit) == ReadBinary(digits) * TWO_64 + v
    {
      ghost var before := digits;
      digits := digits + [if v >= TOP_BIT then '1' else '0'];
      assert digits[..|digits| - 1] == before;
      ghost var unshifted := v;
      v := SafeShiftLeft(v, 1);
      NextBit(top, bit, ReadBinary(before), unshifted, v);
    }
    ReadBinaryBound(digits);
    LowBitsRead(value, length, top, ReadBinary(digits), v);
    result := buffer + "0b" + digits;
    assert result[|buffer + "0b"|..] == digits;
  }

  /** One more digit is the top bit of what is still to be printed. */
  lemma NextBit(top: u64, bit: nat, read: nat, v: u64, shifted: u64)
    requires top * Pow2(bit) == read * TWO_64 + v && shifted == v * Pow2(1) % TWO_64
    ensures top * Pow2(bit + 1) == (2 * read + if v >= TOP_BIT then 1 else 0) * TWO_64 + shifted
  {
    Doubled(top, bit);
    ShiftedOnce(v, shifted);
  }

  lemma Doubled(top: nat, bit: nat)
    ensures top * Pow2(bit + 1) == 2 * (top * Pow2(bit))
  {
    assert top * (2 * Pow2(bit)) == 2 * (top * Pow2(bit));
  }

  lemma ShiftedOnce(v: u64, shifted: u64)
    requires shifted == v * Pow2(1) % TWO_64
    ensures shifted == if v >= TOP_BIT then 2 * v - TWO_64 else 2 * v
  {
    assert Pow2(1) == 2;
  }

  lemma LowBitsRead(value: u64, length: nat, top: u64, read: nat, v: u64)
    requires length <= 64 && top == value * Pow2(64 - length) % TWO_64
    requires top * Pow2(length) == read * TWO_64 + v && read < Pow2(length)
    ensures read == value % Pow2(length)
  {
    var q := value * Pow2(64 - length) / TWO_64;
    assert top == value * Pow2(64 - length) - q * TWO_64;
    Pow2Adds(64 - length, length);
    Pow2At64();
    hide Pow2;
    Unshifted(value, Pow2(64 - length), Pow2(length), TWO_64, q, top, read, v);
    SmallMultiple(value - q * Pow2(length) - read, TWO_64, v);
    Commutes(q, Pow2(length));
    DivModUnique(value, Pow2(length), q, read);
  }

  lemma Unshifted(value: int, high: int, low: int, t: int, q: int, top: int, read: int, v: int)
    requires t == high * low && top == value * high - q * t && top * low == read * t + v
    ensures (value - q * low - read) * t == v
  {
    TopTimes(value, high, low, q);
    Difference(value - q * low, read, t);
  }

  lemma TopTimes(value: int, high: int, low: int, q: int)
    ensures (value * high - q * (high * low)) * low == (value - q * low) * (high * low)
  {
  }

  lemma Difference(a: int, b: int, t: int)
    ensures (a - b) * t == a * t - b * t
  {
  }
}
