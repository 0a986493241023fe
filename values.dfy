/** Identifiers as the resolvers receive them, JavaScript's `String(x)` and `parseInt(x)`
    on them, and the exceptions a resolver can throw. */
module Values {

  /** A GraphQL `Int` argument arrives as a number, an `ID` argument as a string;
      `parseInt` may also produce `NaN`. */
  datatype Id = Num(n: int) | Str(s: string) | NaN

  /** What a resolver throws: apollo's `UserInputError`, a plain `Error`, or the
      `TypeError` that calling an undefined method raises. */
  datatype Thrown = UserInputError(message: string) | Error(message: string) | TypeError(message: string)

  /** The decimal digit character for `d`. */
  function DigitChar(d: nat): (c: char)
    requires d < 10
    ensures '0' <= c <= '9'
  {
    ('0' as int + d) as char
  }

  /** JavaScript's digit value of a character in any radix up to 36; 36 means "not a digit". */
  function DigitValue(c: char): (d: nat)
    ensures d <= 36
    ensures d < 10 <==> '0' <= c <= '9'
  {
    if '0' <= c <= '9' then c as int - '0' as int
    else if 'a' <= c <= 'z' then c as int - 'a' as int + 10
    else if 'A' <= c <= 'Z' then c as int - 'A' as int + 10
    else 36
  }

  /** Decimal notation of a natural number, most significant digit first. */
  function NatToString(n: nat): (s: string)
    ensures 1 <= |s|
    decreases n
  {
    if n < 10 then [DigitChar(n)] else NatToString(n / 10) + [DigitChar(n % 10)]
  }

  /** `String(n)` for an integer number. */
  function IntToString(i: int): string
  {
    if i < 0 then "-" + NatToString(-i) else NatToString(i)
  }

  /** `String(id)`, which is also what a template literal `${id}` inserts. */
  function Show(id: Id): (s: string)
    ensures id.Str? ==> s == id.s
    ensures id.Num? ==> |s| >= 1 && (s[0] == '-' <==> id.n < 0)
    ensures !id.Str? ==> s != ""
  {
    match id
    case Num(n) => NatToStringDigits(if n < 0 then -n else n); IntToString(n)
    case Str(s) => s
    case NaN => "NaN"
  }

  /** The white-space characters `parseInt` skips (the ASCII ones). */
  predicate IsSpace(c: char)
  {
    c == ' ' || c == '\t' || c == '\n' || c == '\r' || c == '\U{000B}' || c == '\U{000C}'
  }

  /** The string without its leading white space. */
  function TrimStart(s: string): (t: string)
    ensures |t| <= |s| && t == s[|s| - |t|..]
    ensures |t| > 0 ==> !IsSpace(t[0])
  {
    if |s| > 0 && IsSpace(s[0]) then TrimStart(s[1..]) else s
  }

  /** Length of the longest prefix of `s` made of digits of the given radix. */
  function DigitPrefix(s: string, radix: nat): (k: nat)
    ensures k <= |s|
    ensures forall i :: 0 <= i < k ==> DigitValue(s[i]) < radix
    ensures k < |s| ==> radix <= DigitValue(s[k])
  {
    if |s| > 0 && DigitValue(s[0]) < radix then 1 + DigitPrefix(s[1..], radix) else 0
  }

  /** The number that a string of digits denotes in the given radix. */
  function DigitsValue(s: string, radix: nat): nat
  {
    if s == [] then 0 else DigitsValue(s[..|s| - 1], radix) * radix + DigitValue(s[|s| - 1])
  }

  /** `parseInt(s)` with no radix: skip leading white space, take an optional sign, then
      parse the unsigned rest. */
  function ParseIntString(s: string): (r: Id)
    ensures !r.Str?
  {
    ParseSigned(TrimStart(s))
  }

  /** A leading `-` negates the parsed value, a leading `+` is dropped. */
  function ParseSigned(t: string): (r: Id)
    ensures !r.Str?
  {
    if |t| > 0 && t[0] == '-' then Negate(ParseUnsigned(t[1..]))
    else if |t| > 0 && t[0] == '+' then ParseUnsigned(t[1..])
    else ParseUnsigned(t)
  }

  /** Unary minus on a parsed value; `-NaN` is `NaN`. */
  function Negate(r: Id): Id
  {
    if r.Num? then Num(-r.n) else r
  }

  /** A `0x`/`0X` prefix selects radix 16; otherwise the radix is 10. */
  function ParseUnsigned(u: string): (r: Id)
    ensures !r.Str?
  {
    if |u| >= 2 && u[0] == '0' && (u[1] == 'x' || u[1] == 'X') then ParseDigits(u[2..], 16)
    else ParseDigits(u, 10)
  }

  /** The value of the longest run of digits at the start of `v`; `NaN` when it is empty. */
  function ParseDigits(v: string, radix: nat): (r: Id)
    ensures r.NaN? <==> (v == [] || radix <= DigitValue(v[0]))
    ensures !r.Str?
  {
    var k := DigitPrefix(v, radix);
    if k == 0 then NaN else Num(DigitsValue(v[..k], radix))
  }

  /** `parseInt(x)`: the argument is converted with `String` first. */
  function ParseInt(x: Id): (r: Id)
    ensures !r.Str?
  {
    ParseIntString(Show(x))
  }

  lemma DigitCharValue(d: nat)
    requires d < 10
    ensures DigitValue(DigitChar(d)) == d
  {
  }

  /** Every character of a decimal numeral is a decimal digit. */
  lemma {:induction false} NatToStringDigits(n: nat)
    ensures forall i :: 0 <= i < |NatToString(n)| ==> DigitValue(NatToString(n)[i]) < 10
    decreases n
  {
    if n >= 10 {
      NatToStringDigits(n / 10);
      var s := NatToString(n);
      assert s == NatToString(n / 10) + [DigitChar(n % 10)];
      forall i | 0 <= i < |s| ensures DigitValue(s[i]) < 10 {
        if i < |s| - 1 {
          assert s[i] == NatToString(n / 10)[i];
        }
      }
    }
  }

  /** A decimal numeral of a positive number has no leading zero. */
  lemma {:induction false} NatToStringNoLeadingZero(n: nat)
    requires 1 <= n
    ensures NatToString(n)[0] != '0'
    decreases n
  {
    if n >= 10 {
      NatToStringNoLeadingZero(n / 10);
      assert NatToString(n)[0] == NatToString(n / 10)[0];
    }
  }

  /** Reading a decimal numeral back gives the number it was printed from. */
  lemma {:induction false} NatToStringValue(n: nat)
    ensures DigitsValue(NatToString(n), 10) == n
    decreases n
  {
    var s := NatToString(n);
    if n < 10 {
      DigitCharValue(n);
      assert s[..|s| - 1] == [];
    } else {
      NatToStringValue(n / 10);
      DigitCharValue(n % 10);
      assert s[..|s| - 1] == NatToString(n / 10);
    }
  }

  /** The digit run of an all-digit string is the whole string. */
  lemma {:induction false} DigitPrefixAll(s: string, radix: nat)
    requires forall i :: 0 <= i < |s| ==> DigitValue(s[i]) < radix
    ensures DigitPrefix(s, radix) == |s|
    decreases |s|
  {
    if |s| > 0 {
      DigitPrefixAll(s[1..], radix);
    }
  }

  /** An unsigned decimal numeral parses back to its number. */
  lemma ParseUnsignedNumeral(n: nat)
    ensures ParseUnsigned(NatToString(n)) == Num(n)
  {
    var u := NatToString(n);
    if |u| >= 2 {
      assert 10 <= n;
      NatToStringNoLeadingZero(n);
    }
    NatToStringDigits(n);
    DigitPrefixAll(u, 10);
    NatToStringValue(n);
    assert u[..|u|] == u;
  }

  /** `parseInt(String(i)) == i` for every integer `i`. */
  lemma ParseIntRoundTrip(i: int)
    ensures ParseIntString(IntToString(i)) == Num(i)
  {
    var m: nat := if i < 0 then -i else i;
    var u := NatToString(m);
    var s := IntToString(i);
    ParseUnsignedNumeral(m);
    NatToStringDigits(m);
    assert DigitValue(u[0]) < 10;
    if i < 0 {
      assert s == "-" + u && s[1..] == u;
      assert !IsSpace(s[0]);
      assert ParseSigned(s) == Negate(ParseUnsigned(u));
    } else {
      assert s == u;
      assert !IsSpace(s[0]) && s[0] != '-' && s[0] != '+';
      assert ParseSigned(s) == ParseUnsigned(u);
    }
    assert TrimStart(s) == s;
  }

  /** `parseInt` leaves a number unchanged, as the delete resolvers rely on when the
      schema declares the id as `Int`. */
  lemma ParseIntOfNumber(n: int)
    ensures ParseInt(Num(n)) == Num(n)
  {
    ParseIntRoundTrip(n);
  }

  /** Different integers print differently. */
  lemma ShowNumInjective(a: int, b: int)
    ensures Show(Num(a)) == Show(Num(b)) <==> a == b
  {
    ParseIntRoundTrip(a);
    ParseIntRoundTrip(b);
  }

  /** The middle part of a concatenation can be cut back out. */
  lemma SliceMiddle(p: string, x: string, q: string)
    ensures (p + x + q)[|p|..|p| + |x|] == x
  {
    assert (p + x + q)[|p|..|p| + |x|] == (p + x)[|p|..];
  }

  /** The last part of `p + x + q` is `q`. */
  lemma SliceEnd(p: string, x: string, q: string)
    ensures (p + x + q)[|p| + |x|..] == q
  {
    assert p + x + q == (p + x) + q;
  }

  /** A message `p + x + q` with fixed `p` and `q` determines `x`. */
  lemma {:induction false} FramedEqual(p: string, x: string, y: string, q: string)
    ensures p + x + q == p + y + q <==> x == y
  {
    if p + x + q == p + y + q {
      assert |x| == |y|;
      SliceMiddle(p, x, q);
      SliceMiddle(p, y, q);
    }
  }
}
