/**
 * The `"status|subStatus|message"` convention of the lounge's validation
 * errors (src/routers/the-lounge.ts:187-191, 660-664): the schema's custom
 * messages are split on `|`, the first two pieces are read with JavaScript's
 * `parseInt` and the third is the human-readable text.
 */
module ErrorFormat {
  import opened Wrappers
  import opened Envelopes

  const Sep: char := '|'
  const DefaultSubStatus: int := 999
  const DefaultMessage: string := "payload is invalid."

  // ---------------------------------------------------------------------
  // String.prototype.split with a one-character separator, and its inverse
  // ---------------------------------------------------------------------

  /** `s.split('|')`: the pieces between separators, in order; never empty. */
  function Split(s: string): (parts: seq<string>)
    ensures |parts| >= 1
    ensures forall i :: 0 <= i < |parts| ==> Sep !in parts[i]
  {
    if s == [] then [""]
    else
      var rest := Split(s[1..]);
      if s[0] == Sep then [""] + rest
      else [[s[0]] + rest[0]] + rest[1..]
  }

  /** `parts.join('|')`. */
  function Join(parts: seq<string>): string
    requires |parts| >= 1
  {
    if |parts| == 1 then parts[0] else parts[0] + [Sep] + Join(parts[1..])
  }

  /** The number of separators in `s`. */
  function SepCount(s: string): nat
  {
    if s == [] then 0 else (if s[0] == Sep then 1 else 0) + SepCount(s[1..])
  }

  /** Joining the pieces gives back the string that was split. */
  lemma {:induction false} JoinSplit(s: string)
    ensures Join(Split(s)) == s
  {
    if s != [] {
      var rest := Split(s[1..]);
      JoinSplit(s[1..]);
      if s[0] == Sep {
        assert ([""] + rest)[1..] == rest;
      } else if |rest| > 1 {
        assert ([[s[0]] + rest[0]] + rest[1..])[1..] == rest[1..];
        assert Join(rest) == rest[0] + [Sep] + Join(rest[1..]);
      }
    }
  }

  /** There is one more piece than there are separators. */
  lemma {:induction false} SplitLength(s: string)
    ensures |Split(s)| == SepCount(s) + 1
  {
    if s != [] {
      SplitLength(s[1..]);
    }
  }

  /** A string without a separator is a single piece. */
  lemma {:induction false} SplitNoSep(s: string)
    requires Sep !in s
    ensures Split(s) == [s]
  {
    if s != [] {
      assert s[0] != Sep;
      assert Sep !in s[1..];
      SplitNoSep(s[1..]);
      assert [s[0]] + s[1..] == s;
    }
  }

  /** A first field followed by a separator splits off as the first piece. */
  lemma {:induction false} SplitAfterField(a: string, t: string)
    requires Sep !in a
    ensures Split(a + [Sep] + t) == [a] + Split(t)
  {
    if a == [] {
      assert a + [Sep] + t == [Sep] + t;
      assert ([Sep] + t)[1..] == t;
    } else {
      assert (a + [Sep] + t)[1..] == a[1..] + [Sep] + t;
      SplitAfterField(a[1..], t);
      assert [a[0]] + a[1..] == a;
    }
  }

  /** Splitting a join of separator-free pieces gives back the pieces. */
  lemma {:induction false} SplitJoin(parts: seq<string>)
    requires |parts| >= 1
    requires forall i :: 0 <= i < |parts| ==> Sep !in parts[i]
    ensures Split(Join(parts)) == parts
  {
    if |parts| == 1 {
      SplitNoSep(parts[0]);
    } else {
      SplitJoin(parts[1..]);
      SplitAfterField(parts[0], Join(parts[1..]));
      assert [parts[0]] + parts[1..] == parts;
    }
  }

  // ---------------------------------------------------------------------
  // parseInt(string) with no radix argument
  // ---------------------------------------------------------------------

  /** The white space and line terminators `parseInt` skips before the number. */
  predicate IsWhiteSpace(c: char)
  {
    var n := c as int;
    n in {0x09, 0x0A, 0x0B, 0x0C, 0x0D, 0x20, 0xA0, 0x1680, 0x2028, 0x2029, 0x202F, 0x205F, 0x3000, 0xFEFF}
    || 0x2000 <= n <= 0x200A
  }

  predicate IsDecimalDigit(c: char)
  {
    '0' <= c <= '9'
  }

  /** A digit of radix 10 or, when a `0x` prefix was seen, of radix 16. */
  predicate IsDigit(c: char, hex: bool)
  {
    IsDecimalDigit(c) || (hex && ('a' <= c <= 'f' || 'A' <= c <= 'F'))
  }

  function DigitValue(c: char): nat
  {
    if '0' <= c <= '9' then c as int - '0' as int
    else if 'a' <= c <= 'f' then c as int - 'a' as int + 10
    else if 'A' <= c <= 'F' then c as int - 'A' as int + 10
    else 0
  }

  /** The numeric value of a string of digits, most significant first. */
  function Value(ds: string, radix: nat): nat
  {
    if ds == [] then 0 else Value(ds[..|ds| - 1], radix) * radix + DigitValue(ds[|ds| - 1])
  }

  /** `s` without its leading white space. */
  function TrimStart(s: string): (r: string)
    ensures |r| <= |s| && r == s[|s| - |r|..]
    ensures r == [] || !IsWhiteSpace(r[0])
  {
    if s != [] && IsWhiteSpace(s[0]) then TrimStart(s[1..]) else s
  }

  /** The length of the longest prefix of `s` made of digits. */
  function DigitPrefix(s: string, hex: bool): (n: nat)
    ensures n <= |s|
    ensures forall i :: 0 <= i < n ==> IsDigit(s[i], hex)
    ensures n < |s| ==> !IsDigit(s[n], hex)
  {
    if s != [] && IsDigit(s[0], hex) then 1 + DigitPrefix(s[1..], hex) else 0
  }

  /** A `0x` or `0X` prefix switches `parseInt` to radix 16. */
  predicate HasHexPrefix(u: string)
  {
    |u| >= 2 && u[0] == '0' && (u[1] == 'x' || u[1] == 'X')
  }

  /**
   * The unsigned part of `parseInt`: an optional `0x` prefix, then the
   * longest run of digits; None (NaN) when that run is empty. Only a string
   * that starts with a decimal digit can have a value.
   */
  function ParseDigits(u: string): (r: Option<nat>)
    ensures r.Some? ==> |u| > 0 && IsDecimalDigit(u[0])
  {
    var hex := HasHexPrefix(u);
    var v := if hex then u[2..] else u;
    var n := DigitPrefix(v, hex);
    if n == 0 then None else Some(Value(v[..n], if hex then 16 else 10))
  }

  /**
   * `parseInt(s)`: skip white space, read an optional sign, then the digits.
   * A result other than NaN needs a decimal digit somewhere in `s`.
   */
  function ParseInt(s: string): (r: Num)
    ensures r.Int? ==> exists i :: 0 <= i < |s| && IsDecimalDigit(s[i])
  {
    var t := TrimStart(s);
    var signed := |t| > 0 && (t[0] == '-' || t[0] == '+');
    var u := if signed then t[1..] else t;
    match ParseDigits(u)
    case None => NaN
    case Some(m) =>
      assert u[0] == s[|s| - |t| + if signed then 1 else 0];
      if signed && t[0] == '-' then Int(0 - m) else Int(m)
  }

  function DecimalDigit(d: nat): (c: char)
    requires d < 10
  {
    ('0' as int + d) as char
  }

  /** The decimal numeral of `n`, without leading zeros. */
  function Show(n: nat): (s: string)
    ensures |s| >= 1
    ensures forall i :: 0 <= i < |s| ==> IsDecimalDigit(s[i])
  {
    if n < 10 then [DecimalDigit(n)] else Show(n / 10) + [DecimalDigit(n % 10)]
  }

  lemma {:induction false} ValueOfShow(n: nat)
    ensures Value(Show(n), 10) == n
  {
    if n >= 10 {
      var s := Show(n);
      assert s[..|s| - 1] == Show(n / 10);
      ValueOfShow(n / 10);
    }
  }

  /**
   * `parseInt` reads back a decimal numeral, also when something that is not
   * a digit (a `|`, say) follows it.
   */
  lemma ParseIntShow(n: nat, rest: string)
    requires rest == [] || !(IsDecimalDigit(rest[0]) || rest[0] == 'x' || rest[0] == 'X')
    ensures ParseInt(Show(n) + rest) == Int(n)
  {
    var d := Show(n);
    var s := d + rest;
    assert s[0] == d[0];
    assert TrimStart(s) == s;
    ParseDigitsShow(n, rest);
  }

  lemma ParseDigitsShow(n: nat, rest: string)
    requires rest == [] || !(IsDecimalDigit(rest[0]) || rest[0] == 'x' || rest[0] == 'X')
    ensures ParseDigits(Show(n) + rest) == Some(n)
  {
    var d := Show(n);
    var s := d + rest;
    assert |d| >= 2 ==> s[1] == d[1];
    assert !HasHexPrefix(s);
    var k := DigitPrefix(s, false);
    assert forall i :: 0 <= i < |d| ==> s[i] == d[i];
    assert |d| < |s| ==> s[|d|] == rest[0];
    assert k == |d|;
    assert s[..k] == d;
    ValueOfShow(n);
  }

  // ---------------------------------------------------------------------
  // The error triple
  // ---------------------------------------------------------------------

  /**
   * The token-only handlers' reading of a validation message: the status
   * from the first piece (`?? '400'` never applies, since split always
   * yields a first piece), the sub-status from the second piece or 999, the
   * text from the third piece or 'payload is invalid.'.
   */
  function ParseError(message: string): (e: ResError)
    ensures Sep !in e.message
  {
    var parts := Split(message);
    var text := if |parts| > 2 then parts[2] else DefaultMessage;
    assert Sep !in text by {
      if |parts| <= 2 {
        assert forall i :: 0 <= i < |DefaultMessage| ==> DefaultMessage[i] != Sep;
      }
    }
    ResError(ParseInt(parts[0]),
             if |parts| > 1 then ParseInt(parts[1]) else Int(DefaultSubStatus),
             text)
  }

  /** A message in the format `"S|SS|M"` becomes `{status: S, subStatus: SS, message: M}`. */
  lemma ParseErrorFormat(status: nat, subStatus: nat, text: string)
    requires Sep !in text
    ensures ParseError(Show(status) + [Sep] + Show(subStatus) + [Sep] + text)
         == ResError(Int(status), Int(subStatus), text)
  {
    var a, b := Show(status), Show(subStatus);
    var message := a + [Sep] + b + [Sep] + text;
    SplitOfThree(a, b, text);
    ShowParses(status);
    ShowParses(subStatus);
    ParseErrorOfThree(message, a, b, text);
  }

  lemma ShowParses(n: nat)
    ensures Sep !in Show(n)
    ensures ParseInt(Show(n)) == Int(n)
  {
    var a := Show(n);
    assert forall i :: 0 <= i < |a| ==> a[i] != Sep;
    ParseIntShow(n, []);
    assert a + [] == a;
  }

  lemma SplitOfThree(a: string, b: string, c: string)
    requires Sep !in a && Sep !in b && Sep !in c
    ensures Split(a + [Sep] + b + [Sep] + c) == [a, b, c]
  {
    SplitAfterField(a, b + [Sep] + c);
    SplitAfterField(b, c);
    SplitNoSep(c);
    assert a + [Sep] + b + [Sep] + c == a + [Sep] + (b + [Sep] + c);
  }

  lemma ParseErrorOfThree(message: string, a: string, b: string, c: string)
    requires Split(message) == [a, b, c]
    ensures ParseError(message) == ResError(ParseInt(a), ParseInt(b), c)
  {
  }

  /**
   * A message without separators (one joi wrote itself rather than a custom
   * message of the schema) falls back to sub-status 999 and
   * 'payload is invalid.', and to a NaN status when it has no digit.
   */
  lemma ParseErrorUnformatted(message: string)
    requires Sep !in message
    ensures ParseError(message).subStatus == Int(DefaultSubStatus)
    ensures ParseError(message).message == DefaultMessage
    ensures (forall i :: 0 <= i < |message| ==> !IsDecimalDigit(message[i]))
              ==> ParseError(message).status == NaN
  {
    SplitNoSep(message);
  }

  /**
   * As written in send-message and update-user: `parseInt(parts[0]!)`,
   * `parseInt(parts[1]!)` and `parts[2]!.toString()`. None stands for the
   * TypeError that `undefined.toString()` throws when there is no third
   * piece; the handler then sends no response at all.
   */
  function ParseErrorStrict(message: string): (r: Option<ResError>)
    ensures r.Some? <==> |Split(message)| >= 3
    ensures r.Some? ==> Sep !in r.value.message
  {
    var parts := Split(message);
    if |parts| > 2 then Some(ResError(ParseInt(parts[0]), ParseInt(parts[1]), parts[2])) else None
  }

  /**
   * The strict reading throws exactly when the message has fewer than two
   * separators, and otherwise agrees with the defaulting reading.
   */
  lemma StrictAgreesWithLenient(message: string)
    ensures ParseErrorStrict(message).Some? <==> SepCount(message) >= 2
    ensures ParseErrorStrict(message).Some? ==> ParseErrorStrict(message).value == ParseError(message)
  {
    SplitLength(message);
  }

  /** What joi reports for an unknown key; it has no separator. */
  const UnknownKeyMessage: string := "\"extra\" is not allowed"

  /**
   * An unknown key in a send-message or update-user request makes the strict
   * reading throw, where the defaulting reading answers NaN / 999 /
   * 'payload is invalid.'.
   */
  lemma UnknownKeyThrows()
    ensures ParseErrorStrict(UnknownKeyMessage) == None
    ensures ParseError(UnknownKeyMessage) == ResError(NaN, Int(DefaultSubStatus), DefaultMessage)
  {
    var m := UnknownKeyMessage;
    assert forall i :: 0 <= i < |m| ==> m[i] != Sep && !IsDecimalDigit(m[i]);
    ParseErrorUnformatted(m);
    SplitNoSep(m);
  }
}
