/**
 * The alternatives index of a question key: `Integer.parseInt(key.split(" ")[1])`.
 * Keys of the question bank have the form "<label> <n>", e.g. "Pregunta 3".
 */
module Keys {
  import opened Wrappers

  const MinInt: int := -0x8000_0000
  const MaxInt: int := 0x7fff_ffff

  /** The position of the first space of `s`, or `|s|` when it has none. */
  function FirstSpace(s: string): (i: nat)
    ensures i <= |s|
    ensures i < |s| ==> s[i] == ' '
    ensures forall j :: 0 <= j < i ==> s[j] != ' '
  {
    if s == [] || s[0] == ' ' then 0 else 1 + FirstSpace(s[1..])
  }

  /**
   * `key.split(" ")[1]`: the text between the first and the second space.
   * Java drops trailing empty pieces, so for an empty second piece it throws
   * instead of returning ""; both end in a failed parse, so "" stands for both.
   * A key without a space has no second piece.
   */
  function SecondToken(key: string): Option<string>
  {
    var i := FirstSpace(key);
    if i == |key| then None
    else
      var rest := key[i + 1..];
      Some(rest[..FirstSpace(rest)])
  }

  /** The second token exists exactly when the key has a space. */
  lemma SecondTokenExists(key: string)
    ensures SecondToken(key).None? <==> forall j :: 0 <= j < |key| ==> key[j] != ' '
  {
    if FirstSpace(key) < |key| {
      assert key[FirstSpace(key)] == ' ';
    }
  }

  /**
   * With i the first space of the key, the second token holds no space,
   * starts right after i, and ends at the next space or at the end of the key.
   */
  lemma SecondTokenSpec(key: string, i: nat)
    requires i < |key| && key[i] == ' ' && forall j :: 0 <= j < i ==> key[j] != ' '
    ensures SecondToken(key).Some?
    ensures var t := SecondToken(key).value;
      (forall j :: 0 <= j < |t| ==> t[j] != ' ') &&
      i + 1 + |t| <= |key| && key[i + 1..i + 1 + |t|] == t &&
      (i + 1 + |t| == |key| || key[i + 1 + |t|] == ' ')
  {
    assert FirstSpace(key) == i;
    var rest := key[i + 1..];
    var e := FirstSpace(rest);
    var t := rest[..e];
    assert SecondToken(key) == Some(t);
    forall j | 0 <= j < e
      ensures key[i + 1..i + 1 + e][j] == t[j] && t[j] != ' '
    {
      assert t[j] == rest[j] == key[i + 1 + j];
    }
    assert key[i + 1..i + 1 + e] == t;
    assert e < |rest| ==> key[i + 1 + e] == rest[e];
  }

  predicate IsDigit(c: char)
  {
    '0' <= c <= '9'
  }

  predicate AllDigits(s: string)
  {
    forall j :: 0 <= j < |s| ==> IsDigit(s[j])
  }

  /** The value of a string of decimal digits, most significant first. */
  function DigitsValue(s: string): nat
    requires AllDigits(s)
  {
    if s == [] then 0
    else 10 * DigitsValue(s[..|s| - 1]) + (s[|s| - 1] as int - '0' as int)
  }

  /**
   * `Integer.parseInt(s)`: an optional sign, then at least one decimal digit,
   * and a value that fits a 32-bit `int`; anything else throws.
   */
  function ParseInt(s: string): Option<int>
  {
    if s == [] then None
    else if s[0] == '-' || s[0] == '+' then
      var digits := s[1..];
      if digits == [] || !AllDigits(digits) then None
      else
        var v: int := if s[0] == '-' then -(DigitsValue(digits) as int) else DigitsValue(digits) as int;
        if MinInt <= v <= MaxInt then Some(v) else None
    else if !AllDigits(s) then None
    else if DigitsValue(s) <= MaxInt then Some(DigitsValue(s))
    else None
  }

  /** The digits of a numeral: the text after a leading sign, if any. */
  function Unsigned(s: string): string
  {
    if s != [] && (s[0] == '-' || s[0] == '+') then s[1..] else s
  }

  /**
   * `parseInt` succeeds exactly on an optional sign followed by at least one
   * digit and nothing else, whose value lies in the 32-bit `int` range; the
   * value is that of the digits, negated after a minus sign.
   */
  lemma ParseIntSpec(s: string)
    ensures ParseInt(s).Some? <==>
      s != [] && Unsigned(s) != [] && AllDigits(Unsigned(s)) &&
      (if s[0] == '-' then DigitsValue(Unsigned(s)) <= -MinInt else DigitsValue(Unsigned(s)) <= MaxInt)
    ensures ParseInt(s).Some? ==>
      MinInt <= ParseInt(s).value <= MaxInt &&
      ParseInt(s).value == (if s[0] == '-' then -(DigitsValue(Unsigned(s)) as int) else DigitsValue(Unsigned(s)) as int)
  {
  }

  /** A leading zero does not change the value of a string of digits. */
  lemma {:induction false} DigitsLeadingZero(s: string)
    requires AllDigits(s)
    ensures AllDigits("0" + s) && DigitsValue("0" + s) == DigitsValue(s)
  {
    if s != [] {
      var z := "0" + s;
      assert z[..|z| - 1] == "0" + s[..|s| - 1];
      DigitsLeadingZero(s[..|s| - 1]);
    }
  }

  /** `parseInt` ignores leading zeros: "07" parses as "7" does. */
  lemma ParseLeadingZero(s: string)
    requires s != [] && AllDigits(s)
    ensures ParseInt("0" + s) == ParseInt(s)
  {
    DigitsLeadingZero(s);
  }

  /** A minus sign before the spelling of n gives -n, down to the least `int`. */
  lemma ParseNegative(n: nat)
    requires n <= -MinInt
    ensures ParseInt("-" + Decimal(n)) == Some(-(n as int))
  {
    var s := "-" + Decimal(n);
    assert s[1..] == Decimal(n);
    DecimalValue(n);
  }

  /** A plus sign before the spelling of n gives n. */
  lemma ParsePlus(n: nat)
    requires n <= MaxInt
    ensures ParseInt("+" + Decimal(n)) == Some(n)
  {
    var s := "+" + Decimal(n);
    assert s[1..] == Decimal(n);
    DecimalValue(n);
  }

  /** The alternatives index of a question key, or `None` where the Java code throws. */
  function KeyIndex(key: string): Option<int>
  {
    match SecondToken(key)
    case None => None
    case Some(t) => ParseInt(t)
  }

  /** The decimal spelling of `n`, as `Integer.toString` writes it. */
  function Decimal(n: nat): (s: string)
    ensures s != [] && AllDigits(s)
  {
    if n < 10 then [('0' as int + n) as char]
    else Decimal(n / 10) + [('0' as int + n % 10) as char]
  }

  lemma {:induction false} DecimalValue(n: nat)
    ensures DigitsValue(Decimal(n)) == n
  {
    if n >= 10 {
      var s := Decimal(n);
      assert s[..|s| - 1] == Decimal(n / 10);
      DecimalValue(n / 10);
    }
  }

  /** Reading a non-negative `int` back from its decimal spelling gives it back. */
  lemma ParseDecimal(n: nat)
    requires n <= MaxInt
    ensures ParseInt(Decimal(n)) == Some(n)
  {
    DecimalValue(n);
  }

  /** A decimal spelling beyond the 32-bit range does not parse: `parseInt` throws. */
  lemma ParseOverflow(n: nat)
    requires n > MaxInt
    ensures ParseInt(Decimal(n)).None?
  {
    DecimalValue(n);
  }

  /** A word without spaces is skipped up to the space, if any, that follows it. */
  lemma {:induction false} FirstSpaceAfterWord(word: string, rest: string)
    requires forall j :: 0 <= j < |word| ==> word[j] != ' '
    requires rest == [] || rest[0] == ' '
    ensures FirstSpace(word + rest) == |word|
  {
    if word == [] {
      assert word + rest == rest;
    } else {
      assert (word + rest)[1..] == word[1..] + rest;
      FirstSpaceAfterWord(word[1..], rest);
    }
  }

  /**
   * The question bank's own keys: "<label> <n>" with a label without spaces
   * gives index n, whatever follows after a further space.
   */
  lemma IndexOfBankKey(name: string, n: nat, tail: string)
    requires forall j :: 0 <= j < |name| ==> name[j] != ' '
    requires n <= MaxInt
    requires tail == [] || tail[0] == ' '
    ensures KeyIndex(name + " " + Decimal(n) + tail) == Some(n)
  {
    var d := Decimal(n);
    assert forall j :: 0 <= j < |d| ==> IsDigit(d[j]);
    TokenIndex(name, d, tail);
    ParseDecimal(n);
  }

  /**
   * The index of a key "label token", with no space in the label or the
   * token and anything after a further space, is what `parseInt` makes of
   * the token: "Pregunta -1" gives -1 and "Pregunta 07" gives 7.
   */
  lemma TokenIndex(name: string, token: string, tail: string)
    requires forall j :: 0 <= j < |name| ==> name[j] != ' '
    requires forall j :: 0 <= j < |token| ==> token[j] != ' '
    requires tail == [] || tail[0] == ' '
    ensures KeyIndex(name + " " + token + tail) == ParseInt(token)
  {
    var key := name + " " + token + tail;
    assert key == name + (" " + token + tail);
    FirstSpaceAfterWord(name, " " + token + tail);
    assert key[|name| + 1..] == token + tail;
    FirstSpaceAfterWord(token, tail);
    assert (token + tail)[..|token|] == token;
  }

  /** A key with no space, such as "Pregunta", has no index. */
  lemma NoSpaceNoIndex(key: string)
    requires forall j :: 0 <= j < |key| ==> key[j] != ' '
    ensures KeyIndex(key).None?
  {
  }

  /**
   * A key whose second token does not start with a digit or a sign, such as
   * "Pregunta uno", has no index.
   */
  lemma WordTokenNoIndex(name: string, word: string)
    requires forall j :: 0 <= j < |name| ==> name[j] != ' '
    requires word != [] && !IsDigit(word[0]) && word[0] != '-' && word[0] != '+'
    ensures KeyIndex(name + " " + word).None?
  {
    var key := name + " " + word;
    assert key == name + (" " + word);
    FirstSpaceAfterWord(name, " " + word);
    assert key[|name| + 1..] == word;
    var t := SecondToken(key).value;
    if t != [] {
      assert t[0] == word[0];
    }
  }
}
