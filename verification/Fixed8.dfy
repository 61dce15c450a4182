/** Exchange decimal strings to 64-bit fixed-point numbers with eight decimals. */
module Fixed8 {
  import opened Wrappers
  import opened Seqs

  datatype IngestError = BadDecimal(text: string)

  const U64_MAX: nat := 0xFFFF_FFFF_FFFF_FFFF

  const SCALE: nat := 100_000_000

  // ---- Text

  /** Unicode white space. */
  predicate IsSpace(c: char) {
    var p := c as int;
    || 0x9 <= p <= 0xD || p == 0x20 || p == 0x85 || p == 0xA0 || p == 0x1680
    || 0x2000 <= p <= 0x200A || p == 0x2028 || p == 0x2029 || p == 0x202F || p == 0x205F || p == 0x3000
  }

  function TrimStart(s: string): string {
    if s != "" && IsSpace(s[0]) then TrimStart(s[1..]) else s
  }

  function TrimEnd(s: string): string {
    if s != "" && IsSpace(s[|s| - 1]) then TrimEnd(s[..|s| - 1]) else s
  }

  function Trim(s: string): string {
    TrimEnd(TrimStart(s))
  }

  /** The twenty-five white space characters. */
  lemma SpacesExactly(c: char)
    ensures IsSpace(c) <==>
              c as int in {9, 10, 11, 12, 13, 32, 133, 160, 5760, 8192, 8193, 8194, 8195, 8196, 8197, 8198, 8199, 8200,
                           8201, 8202, 8232, 8233, 8239, 8287, 12288}
  {
  }

  /** Nothing a number is written with is white space. */
  lemma NoSpaceInNumbers(c: char)
    requires '0' <= c <= '9' || c in {'+', '-', '.'}
    ensures !IsSpace(c)
  {
  }

  predicate AllSpace(s: string) {
    forall i :: 0 <= i < |s| ==> IsSpace(s[i])
  }

  /** Neither end is white space. */
  predicate IsTrimmed(t: string) {
    t == "" || (!IsSpace(t[0]) && !IsSpace(t[|t| - 1]))
  }

  lemma {:induction false} TrimStartCuts(a: string, rest: string)
    requires AllSpace(a) && (rest == "" || !IsSpace(rest[0]))
    ensures TrimStart(a + rest) == rest
  {
    if a == "" {
      assert a + rest == rest;
    } else {
      assert (a + rest)[1..] == a[1..] + rest;
      TrimStartCuts(a[1..], rest);
    }
  }

  lemma {:induction false} TrimEndCuts(rest: string, b: string)
    requires AllSpace(b) && (rest == "" || !IsSpace(rest[|rest| - 1]))
    ensures TrimEnd(rest + b) == rest
  {
    if b == "" {
      assert rest + b == rest;
    } else {
      assert (rest + b)[..|rest + b| - 1] == rest + b[..|b| - 1];
      TrimEndCuts(rest, b[..|b| - 1]);
    }
  }

  /** Trimming leaves the one part between white space that has none at either end. */
  lemma TrimUnique(a: string, t: string, b: string)
    requires AllSpace(a) && AllSpace(b) && IsTrimmed(t)
    ensures Trim(a + t + b) == t
  {
    if t == "" {
      assert a + t + b == (a + b) + "";
      TrimStartCuts(a + b, "");
      TrimEndCuts("", "");
    } else {
      assert a + t + b == a + (t + b);
      TrimStartCuts(a, t + b);
      TrimEndCuts(t, b);
    }
  }

  lemma {:induction false} StartOfTrim(s: string) returns (n: nat)
    ensures n <= |s| && AllSpace(s[..n]) && TrimStart(s) == s[n..]
    ensures n < |s| ==> !IsSpace(s[n])
  {
    if s != "" && IsSpace(s[0]) {
      assert TrimStart(s) == TrimStart(s[1..]);
      hide TrimStart;
      var rest := s[1..];
      n := StartOfTrim(rest);
      n := n + 1;
      assert rest[n - 1..] == s[n..];
      forall i | 0 <= i < n
        ensures IsSpace(s[..n][i])
      {
        assert i > 0 ==> s[i] == rest[..n - 1][i - 1];
      }
    } else {
      n := 0;
    }
  }

  lemma {:induction false} EndOfTrim(s: string) returns (n: nat)
    ensures n <= |s| && AllSpace(s[n..]) && TrimEnd(s) == s[..n]
    ensures n > 0 ==> !IsSpace(s[n - 1])
  {
    if s != "" && IsSpace(s[|s| - 1]) {
      var front := s[..|s| - 1];
      assert TrimEnd(s) == TrimEnd(front);
      hide TrimEnd;
      n := EndOfTrim(front);
      assert front[..n] == s[..n];
      forall i | 0 <= i < |s| - n
        ensures IsSpace(s[n..][i])
      {
        assert i < |s| - n - 1 ==> s[n + i] == front[n..][i];
      }
    } else {
      n := |s|;
    }
  }

  /** And there always is such a part. */
  lemma TrimExists(s: string) returns (a: string, b: string)
    ensures AllSpace(a) && AllSpace(b) && IsTrimmed(Trim(s)) && s == a + Trim(s) + b
  {
    var n := StartOfTrim(s);
    var rest := s[n..];
    var k := EndOfTrim(rest);
    hide TrimStart, TrimEnd, AllSpace;
    a, b := s[..n], rest[k..];
    assert Trim(s) == rest[..k];
    assert s == s[..n] + rest && rest == rest[..k] + rest[k..];
    Associates(s[..n], rest[..k], rest[k..]);
    if k > 0 {
      assert Trim(s)[0] == rest[0] == s[n];
      assert Trim(s)[k - 1] == rest[k - 1];
    }
  }

  /** Index of the first dot, or the length when there is none. */
  function DotIndex(s: string): (i: nat)
    ensures i <= |s|
    ensures '.' !in s[..i]
    ensures i < |s| ==> s[i] == '.'
  {
    if s == "" || s[0] == '.' then 0
    else
      var rest := DotIndex(s[1..]);
      assert s[..rest + 1] == [s[0]] + s[1..][..rest];
      rest + 1
  }

  predicate IsDigit(c: char) {
    '0' <= c <= '9'
  }

  predicate AllDigits(s: string) {
    forall i :: 0 <= i < |s| ==> IsDigit(s[i])
  }

  /** The number a digit string denotes. */
  function Value(digits: string): nat
    requires AllDigits(digits)
  {
    if digits == "" then 0
    else 10 * Value(digits[..|digits| - 1]) + (digits[|digits| - 1] as int - '0' as int)
  }

  function Zeros(n: nat): (s: string)
    ensures |s| == n && AllDigits(s)
  {
    if n == 0 then "" else Zeros(n - 1) + "0"
  }

  /** Reading a 64-bit unsigned number: one leading plus sign is allowed. */
  function ParseU64(s: string): Option<nat> {
    var digits := if |s| > 1 && s[0] == '+' then s[1..] else s;
    if digits == "" || !AllDigits(digits) || Value(digits) > U64_MAX then None else Some(Value(digits))
  }

  /** Integer and fraction parts combined with checked 64-bit arithmetic. */
  function Combine(intPart: string, fracPart: string): Option<nat> {
    if |fracPart| > 8 then None
    else
      match ParseU64(intPart)
      case None => None
      case Some(whole) =>
        if whole * SCALE > U64_MAX then None
        else if fracPart == "" then Some(whole * SCALE)
        else
          match ParseU64(fracPart + Zeros(8 - |fracPart|))
          case None => None
          case Some(frac) => if whole * SCALE + frac > U64_MAX then None else Some(whole * SCALE + frac)
  }

  function ParseFixed8(raw: string): Result<nat, IngestError> {
    var s := Trim(raw);
    if s == "" || s[0] == '-' then Err(BadDecimal(s))
    else
      var dot := DotIndex(s);
      match Combine(s[..dot], if dot < |s| then s[dot + 1..] else "")
      case None => Err(BadDecimal(s))
      case Some(v) => Ok(v)
  }

  /** A number with a minus sign is rejected, whatever white space is around it. */
  lemma NegativeRejected(a: string, rest: string, b: string)
    requires AllSpace(a) && AllSpace(b) && IsTrimmed("-" + rest)
    ensures ParseFixed8(a + ("-" + rest) + b) == Err(BadDecimal("-" + rest))
  {
    TrimUnique(a, "-" + rest, b);
    hide Trim;
  }

  /** A rejected text is reported trimmed. */
  lemma RejectedAsTrimmed(raw: string)
    ensures ParseFixed8(raw).Err? ==> ParseFixed8(raw).error == BadDecimal(Trim(raw))
  {
    hide Trim, Combine;
  }

  // ---- Arithmetic of digit strings

  function Pow10(n: nat): nat {
    if n == 0 then 1 else 10 * Pow10(n - 1)
  }

  lemma {:induction false} ValueConcat(a: string, b: string)
    requires AllDigits(a) && AllDigits(b)
    ensures AllDigits(a + b)
    ensures Value(a + b) == Value(a) * Pow10(|b|) + Value(b)
  {
    if b == "" {
      assert a + b == a;
    } else {
      var b' := b[..|b| - 1];
      ValueConcat(a, b');
      assert (a + b)[..|a + b| - 1] == a + b';
      assert 10 * (Value(a) * Pow10(|b'|)) == Value(a) * Pow10(|b|);
    }
  }

  lemma {:induction false} ZerosValue(n: nat)
    ensures Value(Zeros(n)) == 0
  {
    if n > 0 {
      ZerosValue(n - 1);
      assert Zeros(n)[..n - 1] == Zeros(n - 1);
    }
  }

  lemma {:induction false} ValueBound(s: string)
    requires AllDigits(s)
    ensures Value(s) < Pow10(|s|)
  {
    if s != "" {
      ValueBound(s[..|s| - 1]);
    }
  }

  lemma Pow10Eight()
    ensures Pow10(8) == SCALE
  {
    assert Pow10(8) == 10 * Pow10(7) == 100 * Pow10(6) == 1000 * Pow10(5) == 10000 * Pow10(4);
    assert Pow10(4) == 10 * Pow10(3) == 100 * Pow10(2) == 1000 * Pow10(1);
  }

  lemma {:induction false} Pow10Add(a: nat, b: nat)
    ensures Pow10(a) * Pow10(b) == Pow10(a + b)
  {
    if a > 0 {
      Pow10Add(a - 1, b);
      assert Pow10(a) * Pow10(b) == 10 * (Pow10(a - 1) * Pow10(b));
    }
  }

  lemma Regroup(a: nat, b: nat, p: nat, q: nat)
    ensures (a * p + b) * q == a * (p * q) + b * q
  {
  }

  /** Eight-decimal scaling of `i.f`: shifting the whole digit string equals scaling the parts. */
  lemma ScaledParts(i: string, f: string)
    requires AllDigits(i) && AllDigits(f) && |f| <= 8
    ensures AllDigits(i + f) && AllDigits(f + Zeros(8 - |f|))
    ensures Scaled(i, f) == Value(i) * SCALE + Value(f + Zeros(8 - |f|))
    ensures Value(f + Zeros(8 - |f|)) < SCALE
  {
    hide Value, Pow10, Zeros;
    var k := 8 - |f|;
    ValueConcat(i, f);
    ValueConcat(f, Zeros(k));
    ZerosValue(k);
    ValueBound(f + Zeros(k));
    Pow10Eight();
    Pow10Add(|f|, k);
    Regroup(Value(i), Value(f), Pow10(|f|), Pow10(k));
  }

  /** The decimal number `i.f` times 10^8, exactly: i.f is Value(i + f) / 10^|f|. */
  function Scaled(i: string, f: string): nat
    requires AllDigits(i) && AllDigits(f) && |f| <= 8
  {
    assert AllDigits(i + f);
    Value(i + f) * Pow10(8 - |f|)
  }

  lemma {:induction false} Pow10Positive(n: nat)
    ensures Pow10(n) > 0
  {
    if n > 0 {
      Pow10Positive(n - 1);
    }
  }

  lemma CancelFactor(v: nat, p: nat, q: nat)
    requires p > 0 && q > 0
    ensures p * q > 0 && (v * q) as real / (p * q) as real == v as real / p as real
  {
    var x := v as real / p as real;
    assert v as real == x * p as real;
    assert (v * q) as real == x * (p as real * q as real) == x * (p * q) as real;
  }

  /** Unscaling gives the decimal back exactly. */
  lemma UnscaledExactly(i: string, f: string)
    requires AllDigits(i) && AllDigits(f) && |f| <= 8
    ensures AllDigits(i + f) && Pow10(|f|) > 0
    ensures Scaled(i, f) as real / SCALE as real == Value(i + f) as real / Pow10(|f|) as real
  {
    hide Value, Pow10;
    Pow10Positive(|f|);
    Pow10Positive(8 - |f|);
    Pow10Add(|f|, 8 - |f|);
    Pow10Eight();
    CancelFactor(Value(i + f), Pow10(|f|), Pow10(8 - |f|));
  }

  // ---- What is accepted, and as what

  /** The text denotes the decimal `i.f`: an optional plus sign, the integer digits, and optionally a dot
      with the fraction digits. A plus sign opening the fraction stands for a zero digit. */
  ghost predicate Denotes(t: string, i: string, f: string) {
    && i != "" && AllDigits(i) && AllDigits(f) && |f| <= 8
    && exists sign, tail :: IsSign(sign) && IsTail(tail, f) && t == sign + i + tail
  }

  predicate IsSign(sign: string) {
    sign == "" || sign == "+"
  }

  predicate IsTail(tail: string, f: string) {
    || (f == "" && tail == "")
    || tail == "." + f
    || (f != "" && f[0] == '0' && tail == ".+" + f[1..])
  }

  lemma ParseSigned(sign: string, digits: string)
    requires IsSign(sign) && digits != "" && AllDigits(digits)
    ensures ParseU64(sign + digits) == if Value(digits) > U64_MAX then None else Some(Value(digits))
  {
    assert (sign + digits)[|sign|..] == digits;
  }

  lemma {:induction false} LeadingZero(digits: string)
    requires AllDigits(digits)
    ensures AllDigits("0" + digits) && Value("0" + digits) == Value(digits)
  {
    if digits != "" {
      LeadingZero(digits[..|digits| - 1]);
      assert ("0" + digits)[..|digits|] == "0" + digits[..|digits| - 1];
    }
  }

  lemma PlusIsZero(rest: string)
    requires rest != "" && AllDigits(rest)
    ensures ParseU64("+" + rest) == ParseU64("0" + rest)
  {
    LeadingZero(rest);
    hide Value, ParseU64, AllDigits;
    ParseSigned("+", rest);
    assert "" + ("0" + rest) == "0" + rest;
    ParseSigned("", "0" + rest);
  }

  lemma {:induction false} DotAfter(a: string, b: string)
    requires '.' !in a && (b == "" || b[0] == '.')
    ensures DotIndex(a + b) == |a|
  {
    if a == "" {
      assert a + b == b;
    } else {
      assert (a + b)[1..] == a[1..] + b;
      DotAfter(a[1..], b);
    }
  }

  lemma SwapFirst(f: string, z: string)
    requires f != "" && f[0] == '0' && AllDigits(f) && AllDigits(z)
    ensures f + z == "0" + (f[1..] + z)
    ensures ("+" + f[1..]) + z == "+" + (f[1..] + z)
    ensures AllDigits(f[1..] + z)
  {
  }

  /** Any spelling of the fraction parses like its plain digits. */
  lemma FractionParses(frac: string, f: string)
    requires AllDigits(f) && 1 <= |f| <= 8
    requires frac == f || (f[0] == '0' && frac == "+" + f[1..])
    ensures |frac| == |f| && AllDigits(f + Zeros(8 - |f|))
    ensures ParseU64(frac + Zeros(8 - |f|)) == Some(Value(f + Zeros(8 - |f|)))
  {
    var z := Zeros(8 - |f|);
    ScaledParts("", f);
    hide Value, Zeros, Pow10, Scaled, ParseU64, AllDigits;
    assert "" + (f + z) == f + z;
    ParseSigned("", f + z);
    if frac != f {
      SwapFirst(f, z);
      PlusIsZero(f[1..] + z);
    }
  }

  lemma CombineExact(sign: string, i: string, frac: string, f: string)
    requires IsSign(sign) && i != "" && AllDigits(i) && AllDigits(f) && |f| <= 8
    requires frac == f || (f != "" && f[0] == '0' && frac == "+" + f[1..])
    ensures Combine(sign + i, frac) == if Scaled(i, f) <= U64_MAX then Some(Scaled(i, f)) else None
  {
    hide Value, Zeros, Pow10, ParseU64, Scaled, AllDigits;
    ParseSigned(sign, i);
    ScaledParts(i, f);
    if f == "" {
      assert f + Zeros(8) == Zeros(8);
      ZerosValue(8);
    } else {
      FractionParses(frac, f);
    }
  }

  lemma SplitAtDot(head: string, tail: string)
    requires '.' !in head && (tail == "" || tail[0] == '.')
    ensures DotIndex(head + tail) == |head|
    ensures (head + tail)[..|head|] == head
    ensures tail != "" ==> (head + tail)[|head| + 1..] == tail[1..]
  {
    DotAfter(head, tail);
  }

  lemma TailFraction(tail: string, f: string)
    requires IsTail(tail, f)
    ensures tail == "" || tail[0] == '.'
    ensures var frac := if tail == "" then "" else tail[1..];
            frac == f || (f != "" && f[0] == '0' && frac == "+" + f[1..])
  {
    assert tail == "." + f ==> tail[1..] == f;
    assert f != "" && tail == ".+" + f[1..] ==> tail[1..] == "+" + f[1..];
  }

  lemma ParsesParts(raw: string, head: string, tail: string)
    requires Trim(raw) == head + tail && head != "" && head[0] != '-'
    requires '.' !in head && (tail == "" || tail[0] == '.')
    ensures ParseFixed8(raw)
         == match Combine(head, if tail == "" then "" else tail[1..])
            case None => Err(BadDecimal(Trim(raw)))
            case Some(v) => Ok(v)
  {
    hide Trim, Combine, DotIndex;
    SplitAtDot(head, tail);
  }

  lemma DenotedParses(raw: string, i: string, f: string)
    requires Denotes(Trim(raw), i, f)
    ensures ParseFixed8(raw) == if Scaled(i, f) <= U64_MAX then Ok(Scaled(i, f)) else Err(BadDecimal(Trim(raw)))
  {
    var sign, tail :| IsSign(sign) && IsTail(tail, f) && Trim(raw) == sign + i + tail;
    var head := sign + i;
    assert head != "" && head[0] != '-' && '.' !in head;
    TailFraction(tail, f);
    hide Trim, Combine, Scaled, AllDigits, IsTail, Denotes, ParseFixed8;
    ParsesParts(raw, head, tail);
    CombineExact(sign, i, if tail == "" then "" else tail[1..], f);
  }

  lemma SignedDigits(s: string) returns (sign: string, digits: string)
    requires ParseU64(s).Some?
    ensures IsSign(sign) && digits != "" && AllDigits(digits) && s == sign + digits
  {
    if |s| > 1 && s[0] == '+' {
      sign, digits := "+", s[1..];
    } else {
      sign, digits := "", s;
    }
  }

  /** A plus sign in place of the first of `1 + |rest|` digits. */
  lemma PlusFraction(rest: string)
    requires AllDigits(rest)
    ensures AllDigits("0" + rest) && IsTail("." + ("+" + rest), "0" + rest)
  {
    var f := "0" + rest;
    assert f[1..] == rest;
    assert "." + ("+" + rest) == ".+" + rest;
  }

  lemma FrontOf(front: string, z: string, digits: string)
    requires front + z == digits && AllDigits(digits)
    ensures AllDigits(front)
  {
    assert digits[..|front|] == front;
  }

  lemma AcceptedFraction(frac: string) returns (f: string)
    requires 1 <= |frac| <= 8 && ParseU64(frac + Zeros(8 - |frac|)).Some?
    ensures AllDigits(f) && |f| <= 8 && IsTail("." + frac, f)
  {
    var padded := frac + Zeros(8 - |frac|);
    var z := Zeros(8 - |frac|);
    hide ParseU64, Zeros, AllDigits;
    var sign, digits := SignedDigits(padded);
    if sign == "" {
      assert "" + digits == digits;
      FrontOf(frac, z, digits);
      f := frac;
    } else {
      var rest := frac[1..];
      assert padded[0] == '+' && frac == "+" + rest;
      assert padded[1..] == digits && padded[1..] == rest + z;
      FrontOf(rest, z, digits);
      f := "0" + rest;
      hide IsTail;
      PlusFraction(rest);
    }
  }

  lemma AcceptedDenotes(raw: string) returns (i: string, f: string)
    requires ParseFixed8(raw).Ok?
    ensures Denotes(Trim(raw), i, f)
  {
    var s := Trim(raw);
    var dot := DotIndex(s);
    hide Trim, DotIndex, ParseU64;
    var sign;
    sign, i := SignedDigits(s[..dot]);
    var tail := "";
    f := "";
    if dot < |s| {
      tail := "." + s[dot + 1..];
      assert s == s[..dot] + tail;
      if s[dot + 1..] != "" {
        f := AcceptedFraction(s[dot + 1..]);
      }
    }
    assert s == sign + i + tail && IsTail(tail, f);
  }

  /** On every string: a result is returned iff the trimmed text denotes a decimal whose value times 10^8
      fits 64 bits, and then the result is exactly that number. */
  lemma ParsesExactly(raw: string, v: nat)
    ensures ParseFixed8(raw) == Ok(v)
        <==> exists i, f :: Denotes(Trim(raw), i, f) && v == Scaled(i, f) && v <= U64_MAX
  {
    hide ParseFixed8, Scaled, Trim;
    if ParseFixed8(raw) == Ok(v) {
      var i, f := AcceptedDenotes(raw);
      DenotedParses(raw, i, f);
    }
    if i, f :| Denotes(Trim(raw), i, f) && v == Scaled(i, f) && v <= U64_MAX {
      DenotedParses(raw, i, f);
    }
  }

  /** A plus sign opening the fraction is read as the digit zero, so such a text is not the decimal it looks like. */
  lemma FractionPlusAccepted()
    ensures ParseFixed8("1.+5") == Ok(105_000_000) == ParseFixed8("1.05")
  {
    TrimKeeps("1.+5");
    TrimKeeps("1.05");
    assert "1.+5" == "" + "1" + ".+5" && ".+5" == ".+" + "05"[1..];
    assert "1.05" == "" + "1" + ".05" && ".05" == "." + "05";
    assert IsSign("") && IsTail(".+5", "05") && IsTail(".05", "05");
    assert Denotes("1.+5", "1", "05") && Denotes("1.05", "1", "05");
    ValueConcat("1", "05");
    assert Value("1" + "05") == 105 by {
      assert ("1" + "05")[..2] == "10" && "10"[..1] == "1" && "1"[..0] == "";
    }
    assert Pow10(6) == 10 * Pow10(5) == 100 * Pow10(4) == 1000 * Pow10(3) == 10000 * Pow10(2) == 1_000_000;
    hide ParseFixed8, Denotes, Trim, Value, Pow10;
    DenotedParses("1.+5", "1", "05");
    DenotedParses("1.05", "1", "05");
  }

  // ---- Printing and parsing back

  /** The decimal digits of a number, without leading zeros. */
  function Digits(n: nat): (s: string)
    ensures s != "" && AllDigits(s)
  {
    var d := ('0' as int + n % 10) as char;
    if n < 10 then [d] else Digits(n / 10) + [d]
  }

  lemma {:induction false} DigitsValue(n: nat)
    ensures Value(Digits(n)) == n
  {
    if n >= 10 {
      DigitsValue(n / 10);
      assert Digits(n)[..|Digits(n)| - 1] == Digits(n / 10);
    } else {
      assert Digits(n)[..0] == "";
    }
  }

  lemma {:induction false} DigitsLength(n: nat, k: nat)
    requires n < Pow10(k) && k >= 1
    ensures |Digits(n)| <= k
  {
    if n >= 10 {
      assert k > 1;
      DigitsLength(n / 10, k - 1);
    }
  }

  /** `raw` printed with exactly eight decimals. */
  function Render(raw: nat): string {
    var frac := Digits(raw % SCALE);
    Digits(raw / SCALE) + "." + (if |frac| <= 8 then Zeros(8 - |frac|) + frac else frac)
  }

  lemma TrimKeeps(s: string)
    requires s != "" && !IsSpace(s[0]) && !IsSpace(s[|s| - 1])
    ensures Trim(s) == s
  {
  }

  /** The eight fraction digits `Render` prints. */
  lemma PaddedFraction(n: nat) returns (f: string)
    requires n < SCALE
    ensures AllDigits(f) && |f| == 8 && Value(f) == n
    ensures |Digits(n)| <= 8 && f == Zeros(8 - |Digits(n)|) + Digits(n)
  {
    Pow10Eight();
    DigitsLength(n, 8);
    var d := Digits(n);
    f := Zeros(8 - |d|) + d;
    ValueConcat(Zeros(8 - |d|), d);
    ZerosValue(8 - |d|);
    DigitsValue(n);
  }

  /** Digits, a dot and digits denote just that, and have nothing to trim. */
  lemma PlainDenotes(i: string, f: string)
    requires i != "" && AllDigits(i) && f != "" && AllDigits(f) && |f| <= 8
    ensures var t := i + "." + f; Denotes(t, i, f) && Trim(t) == t
  {
    var t := i + "." + f;
    assert IsDigit(i[0]) && IsDigit(f[|f| - 1]);
    assert t[0] == i[0] && t[|t| - 1] == f[|f| - 1];
    TrimKeeps(t);
    hide Trim, AllDigits;
    assert t == "" + i + ("." + f);
    assert IsSign("") && IsTail("." + f, f);
  }

  lemma RenderDenotes(raw: nat) returns (i: string, f: string)
    ensures AllDigits(i) && AllDigits(f) && Denotes(Render(raw), i, f) && Trim(Render(raw)) == Render(raw)
    ensures |f| == 8 && Scaled(i, f) == raw
  {
    i := Digits(raw / SCALE);
    DigitsValue(raw / SCALE);
    f := PaddedFraction(raw % SCALE);
    ScaledParts(i, f);
    assert f + Zeros(0) == f;
    hide Scaled, Value, Digits, Zeros, AllDigits, Denotes, Trim;
    PlainDenotes(i, f);
  }

  /** Every 64-bit number, printed with eight decimals, parses back to itself. */
  lemma RoundTrip(raw: nat)
    requires raw <= U64_MAX
    ensures ParseFixed8(Render(raw)) == Ok(raw)
  {
    var i, f := RenderDenotes(raw);
    hide Render, ParseFixed8, Trim, Denotes, AllDigits, Scaled;
    DenotedParses(Render(raw), i, f);
  }
}
