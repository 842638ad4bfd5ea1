/**
 * The `Message` exercise, exercises/messages/src/solution.rs: a four-variant
 * enum and its `Display` implementation. `Display` is modelled as a function
 * from a message to its text, with Rust's decimal formatting of `i32` and
 * `u8` written out. A parser for the four text forms is its partner: parsing
 * the text of any message gives the message back.
 */
module Messages {
  import opened Primitives

  datatype Message =
    | Move(x: i32, y: i32)
    | Echo(s: string)
    | ChangeColor(r: u8, g: u8, b: u8)
    | Quit

  // ---------------------------------------------------------------------
  // Decimal numerals

  predicate IsDigit(c: char) { '0' <= c <= '9' }

  function DigitChar(d: nat): (c: char)
    requires d < 10
    ensures IsDigit(c)
  {
    ('0' as int + d) as char
  }

  function DigitValue(c: char): nat
    requires IsDigit(c)
  {
    (c as int - '0' as int) as nat
  }

  /** `{}` of a non-negative integer: its decimal digits, most significant
      first, without leading zeros. */
  function NatToDecimal(n: nat): (r: string)
    ensures |r| >= 1
    ensures forall k :: 0 <= k < |r| ==> IsDigit(r[k])
    ensures r[0] == '0' ==> n == 0
    decreases n
  {
    if n < 10 then [DigitChar(n)] else NatToDecimal(n / 10) + [DigitChar(n % 10)]
  }

  /** `{}` of a signed integer: a `-` in front of the magnitude when negative. */
  function IntToDecimal(x: int): string
  {
    if x < 0 then "-" + NatToDecimal(-x) else NatToDecimal(x)
  }

  /** The value of a string of digits. */
  function DigitsValue(s: string): nat
    requires forall k :: 0 <= k < |s| ==> IsDigit(s[k])
    decreases |s|
  {
    if s == [] then 0 else DigitsValue(s[..|s| - 1]) * 10 + DigitValue(s[|s| - 1])
  }

  /** A non-empty string of digits, read as a number. */
  function ParseNat(s: string): Option<nat>
  {
    if s != [] && forall k :: 0 <= k < |s| ==> IsDigit(s[k]) then Some(DigitsValue(s)) else None
  }

  /** An optionally negative decimal numeral. */
  function ParseInt(s: string): Option<int>
  {
    if s != [] && s[0] == '-' then
      match ParseNat(s[1..])
      case None => None
      case Some(n) => Some(-(n as int))
    else
      match ParseNat(s)
      case None => None
      case Some(n) => Some(n)
  }

  /** Reading the digits back gives the number. */
  lemma {:induction false} NatToDecimalRoundTrip(n: nat)
    ensures DigitsValue(NatToDecimal(n)) == n
    decreases n
  {
    if n >= 10 {
      NatToDecimalRoundTrip(n / 10);
      var r := NatToDecimal(n);
      assert r[..|r| - 1] == NatToDecimal(n / 10);
    }
  }

  /** A numeral reads back as its number. */
  lemma ParseNatDecimal(n: nat)
    ensures ParseNat(NatToDecimal(n)) == Some(n)
  {
    NatToDecimalRoundTrip(n);
  }

  lemma IntToDecimalRoundTrip(x: int)
    ensures ParseInt(IntToDecimal(x)) == Some(x)
  {
    if x < 0 {
      var d := NatToDecimal(-x);
      ParseNatDecimal(-x);
      assert IntToDecimal(x) == "-" + d;
      assert ("-" + d)[1..] == d;
    } else {
      var d := NatToDecimal(x);
      ParseNatDecimal(x);
      assert IsDigit(d[0]);
      assert IntToDecimal(x) == d;
    }
  }

  /** A numeral starts with `-` exactly for negative numbers, and has no
      comma or space. */
  lemma IntToDecimalShape(x: int)
    ensures |IntToDecimal(x)| >= 1
    ensures IntToDecimal(x)[0] == '-' <==> x < 0
    ensures forall k :: 0 <= k < |IntToDecimal(x)| ==> IntToDecimal(x)[k] != ',' && IntToDecimal(x)[k] != ' '
  {
  }

  /** A `u8` prints with one to three digits: one below 10, two below 100,
      three otherwise. */
  lemma U8Digits(v: u8)
    ensures |NatToDecimal(v as nat)| == if v < 10 then 1 else if v < 100 then 2 else 3
  {
    if v >= 10 {
      assert NatToDecimal(v as nat) == NatToDecimal(v as nat / 10) + [DigitChar(v as nat % 10)];
      if v >= 100 {
        assert NatToDecimal(v as nat / 10) == NatToDecimal(v as nat / 100) + [DigitChar(v as nat / 10 % 10)];
      }
    }
  }

  // ---------------------------------------------------------------------
  // Display

  /** `impl fmt::Display for Message`. */
  function Display(m: Message): string
  {
    match m
    case Move(x, y) => "Move to (" + IntToDecimal(x as int) + ", " + IntToDecimal(y as int) + ")"
    case Echo(s) => "Echo: " + s
    case ChangeColor(r, g, b) =>
      "Change color to (" + NatToDecimal(r as nat) + ", " + NatToDecimal(g as nat) + ", "
        + NatToDecimal(b as nat) + ")"
    case Quit => "Quit"
  }

  /** The text of an `Echo` is its fixed prefix followed by the string itself. */
  lemma EchoCarriesText(s: string)
    ensures Display(Echo(s))[..6] == "Echo: "
    ensures Display(Echo(s))[6..] == s
  {
  }

  /** The sample messages of `main` and their text. */
  lemma SampleTexts()
    ensures Display(Move(10, 30)) == "Move to (10, 30)"
    ensures Display(Echo("hello world")) == "Echo: hello world"
    ensures Display(ChangeColor(200, 255, 255)) == "Change color to (200, 255, 255)"
    ensures Display(Quit) == "Quit"
  {
    SampleMove();
    SampleChangeColor();
  }

  lemma SampleMove()
    ensures Display(Move(10, 30)) == "Move to (10, 30)"
  {
    TwoDigits(10);
    TwoDigits(30);
    assert IntToDecimal(10) == "10" && IntToDecimal(30) == "30";
  }

  lemma SampleChangeColor()
    ensures Display(ChangeColor(200, 255, 255)) == "Change color to (200, 255, 255)"
  {
    Decimal200();
    Decimal255();
    assert "Change color to (" + "200" + ", " + "255" + ", " + "255" + ")" == "Change color to (200, 255, 255)";
  }

  lemma Decimal200()
    ensures NatToDecimal(200) == "200"
  {
    ThreeDigits(200);
  }

  lemma Decimal255()
    ensures NatToDecimal(255) == "255"
  {
    ThreeDigits(255);
  }

  lemma TwoDigits(n: nat)
    requires 10 <= n < 100
    ensures NatToDecimal(n) == [DigitChar(n / 10), DigitChar(n % 10)]
  {
  }

  lemma ThreeDigits(n: nat)
    requires 100 <= n < 1000
    ensures NatToDecimal(n) == [DigitChar(n / 100), DigitChar(n / 10 % 10), DigitChar(n % 10)]
  {
    TwoDigits(n / 10);
  }

  // ---------------------------------------------------------------------
  // Reading the text back

  /** The position of the first comma, if any. */
  function IndexOfComma(s: string): (r: Option<nat>)
    ensures r.Some? ==> r.value < |s| && s[r.value] == ',' && forall k :: 0 <= k < r.value ==> s[k] != ','
    ensures r.None? ==> forall k :: 0 <= k < |s| ==> s[k] != ','
    decreases |s|
  {
    if s == [] then None
    else if s[0] == ',' then Some(0)
    else
      match IndexOfComma(s[1..])
      case None => None
      case Some(k) => Some(k + 1)
  }

  /** `a, b` split at its first `", "`. */
  function SplitArgs(s: string): Option<(string, string)>
  {
    match IndexOfComma(s)
    case None => None
    case Some(k) => if k + 1 < |s| && s[k + 1] == ' ' then Some((s[..k], s[k + 2..])) else None
  }

  lemma SplitArgsJoin(a: string, b: string)
    requires forall k :: 0 <= k < |a| ==> a[k] != ','
    ensures SplitArgs(a + ", " + b) == Some((a, b))
  {
    var s := a + ", " + b;
    var r := IndexOfComma(s);
    assert s[|a|] == ',';
    assert r == Some(|a|);
    assert s[..|a|] == a && s[|a| + 2..] == b;
  }

  function ParseI32(s: string): Option<i32>
  {
    match ParseInt(s)
    case None => None
    case Some(v) => if -0x8000_0000 <= v < 0x8000_0000 then Some(v as i32) else None
  }

  function ParseU8(s: string): Option<u8>
  {
    match ParseNat(s)
    case None => None
    case Some(v) => if v < 0x100 then Some(v as u8) else None
  }

  /** The text between a prefix and a closing parenthesis. */
  function Between(s: string, prefix: string): Option<string>
  {
    if |s| > |prefix| && s[..|prefix|] == prefix && s[|s| - 1] == ')' then Some(s[|prefix|..|s| - 1])
    else None
  }

  /** The arguments of `Move to (x, y)`. */
  function ParseMoveArgs(inner: string): Option<Message>
  {
    match SplitArgs(inner)
    case None => None
    case Some((a, b)) =>
      match (ParseI32(a), ParseI32(b))
      case (Some(x), Some(y)) => Some(Move(x, y))
      case _ => None
  }

  /** The arguments of `Change color to (r, g, b)`. */
  function ParseColorArgs(inner: string): Option<Message>
  {
    match SplitArgs(inner)
    case None => None
    case Some((a, rest)) =>
      match SplitArgs(rest)
      case None => None
      case Some((b, c)) =>
        match (ParseU8(a), ParseU8(b), ParseU8(c))
        case (Some(r), Some(g), Some(bl)) => Some(ChangeColor(r, g, bl))
        case _ => None
  }

  /** Reads a message back from its text. */
  function Parse(s: string): Option<Message>
  {
    if |s| >= 6 && s[..6] == "Echo: " then Some(Echo(s[6..]))
    else if s == "Quit" then Some(Quit)
    else if Between(s, "Move to (").Some? then ParseMoveArgs(Between(s, "Move to (").value)
    else if Between(s, "Change color to (").Some? then ParseColorArgs(Between(s, "Change color to (").value)
    else None
  }

  /** Every message can be read back from its text. */
  lemma ParseDisplay(m: Message)
    ensures Parse(Display(m)) == Some(m)
  {
    match m
    case Echo(s) =>
    case Quit =>
    case Move(x, y) => ParseMove(x, y);
    case ChangeColor(r, g, b) => ParseChangeColor(r, g, b);
  }

  /** A prefix, some text and a closing parenthesis: `Between` finds the text. */
  lemma BetweenOf(prefix: string, inner: string)
    ensures Between(prefix + inner + ")", prefix) == Some(inner)
  {
    var s := prefix + inner + ")";
    assert s[..|prefix|] == prefix;
    assert s[|prefix|..|s| - 1] == inner;
  }

  lemma ParseMove(x: i32, y: i32)
    ensures Parse(Display(Move(x, y))) == Some(Move(x, y))
  {
    var a, b := IntToDecimal(x as int), IntToDecimal(y as int);
    var inner := a + ", " + b;
    var s := Display(Move(x, y));
    assert s == "Move to (" + inner + ")";
    assert s[..6] != "Echo: " && s != "Quit" by { assert s[0] == 'M'; }
    BetweenOf("Move to (", inner);
    IntToDecimalShape(x as int);
    SplitArgsJoin(a, b);
    IntToDecimalRoundTrip(x as int);
    IntToDecimalRoundTrip(y as int);
  }

  lemma ParseChangeColor(r: u8, g: u8, b: u8)
    ensures Parse(Display(ChangeColor(r, g, b))) == Some(ChangeColor(r, g, b))
  {
    var dr, dg, db := NatToDecimal(r as nat), NatToDecimal(g as nat), NatToDecimal(b as nat);
    var rest := dg + ", " + db;
    var inner := dr + ", " + rest;
    var s := Display(ChangeColor(r, g, b));
    assert s == "Change color to (" + inner + ")";
    assert s[..6] != "Echo: " && s != "Quit" by { assert s[0] == 'C'; }
    assert Between(s, "Move to (").None? by { assert s[0] == 'C'; }
    BetweenOf("Change color to (", inner);
    assert ParseColorArgs(inner) == Some(ChangeColor(r, g, b)) by {
      SplitArgsJoin(dr, rest);
      SplitArgsJoin(dg, db);
      ParseU8Decimal(r);
      ParseU8Decimal(g);
      ParseU8Decimal(b);
    }
  }

  /** A `u8` numeral reads back as the same `u8`. */
  lemma ParseU8Decimal(v: u8)
    ensures ParseU8(NatToDecimal(v as nat)) == Some(v)
  {
    NatToDecimalRoundTrip(v as nat);
  }

  /** Different messages have different texts: the variant and its fields can
      be recovered from the text. */
  lemma DisplayInjective(m1: Message, m2: Message)
    requires Display(m1) == Display(m2)
    ensures m1 == m2
  {
    ParseDisplay(m1);
    ParseDisplay(m2);
  }
}
