/** Decimal and boolean text as Go's strconv prints and parses it, and "/"-joined keys. */
module Text {
  import opened Basics

  const MIN_INT64 := -0x8000_0000_0000_0000
  const MAX_INT64 := 0x7fff_ffff_ffff_ffff

  function Digit(d: nat): char
    requires d < 10
  {
    ('0' as int + d) as char
  }

  predicate IsDigit(c: char) {
    '0' <= c <= '9'
  }

  predicate AllDigits(s: string) {
    forall i :: 0 <= i < |s| ==> IsDigit(s[i])
  }

  function DigitValue(c: char): (d: nat)
    requires IsDigit(c)
  {
    c as int - '0' as int
  }

  function FormatNat(n: nat): string {
    if n < 10 then [Digit(n)] else FormatNat(n / 10) + [Digit(n % 10)]
  }

  /** strconv.FormatInt(n, 10) */
  function FormatInt(n: int): string {
    if n < 0 then "-" + FormatNat(-n) else FormatNat(n)
  }

  function Decimal(s: string): nat
    requires AllDigits(s)
  {
    if s == [] then 0 else 10 * Decimal(s[..|s| - 1]) + DigitValue(s[|s| - 1])
  }

  function Unsigned(s: string): string {
    if s != [] && (s[0] == '+' || s[0] == '-') then s[1..] else s
  }

  /** strconv.ParseInt(s, 10, 64): an optional sign, then digits, then the range check. */
  function ParseInt(s: string): Option<int> {
    var digits := Unsigned(s);
    if digits == [] || !AllDigits(digits) then None
    else
      var magnitude: int := Decimal(digits);
      var n := if s[0] == '-' then -magnitude else magnitude;
      if MIN_INT64 <= n <= MAX_INT64 then Some(n) else None
  }

  /** strconv.FormatBool */
  function FormatBool(b: bool): string {
    if b then "true" else "false"
  }

  /** strconv.ParseBool */
  function ParseBool(s: string): Option<bool> {
    if s in ["1", "t", "T", "TRUE", "true", "True"] then Some(true)
    else if s in ["0", "f", "F", "FALSE", "false", "False"] then Some(false)
    else None
  }

  /** The texts that Go takes for booleans, and no others. */
  lemma ParseBoolExactly(s: string)
    ensures ParseBool(s) == Some(true) <==>
              s == "1" || s == "t" || s == "T" || s == "true" || s == "True" || s == "TRUE"
    ensures ParseBool(s) == Some(false) <==>
              s == "0" || s == "f" || s == "F" || s == "false" || s == "False" || s == "FALSE"
  {
  }

  lemma {:induction false} FormatNatDigits(n: nat)
    ensures FormatNat(n) != [] && AllDigits(FormatNat(n)) && Decimal(FormatNat(n)) == n
  {
    if n < 10 {
      assert FormatNat(n)[..0] == [];
      assert Decimal([]) == 0;
    } else {
      FormatNatDigits(n / 10);
      var s := FormatNat(n);
      assert s[..|s| - 1] == FormatNat(n / 10);
      assert s[|s| - 1] == Digit(n % 10);
    }
  }

  lemma FormatNatInjective(m: nat, n: nat)
    requires FormatNat(m) == FormatNat(n)
    ensures m == n
  {
    FormatNatDigits(m);
    FormatNatDigits(n);
  }

  lemma ParseDigits(s: string)
    requires s != [] && AllDigits(s)
    ensures Decimal(s) <= MAX_INT64 ==> ParseInt(s) == Some(Decimal(s))
    ensures MIN_INT64 <= 0 - Decimal(s) ==> ParseInt("-" + s) == Some(0 - Decimal(s))
    ensures ParseInt("+" + s) == ParseInt(s)
  {
    assert IsDigit(s[0]);
    assert ("-" + s)[0] == '-' && ("-" + s)[1..] == s;
    assert ("+" + s)[0] == '+' && ("+" + s)[1..] == s;
  }

  /** Parsing undoes printing on the whole 64-bit range. */
  lemma ParseFormatInt(n: int)
    requires MIN_INT64 <= n <= MAX_INT64
    ensures ParseInt(FormatInt(n)) == Some(n)
  {
    var magnitude: nat := if n < 0 then -n else n;
    FormatNatDigits(magnitude);
    ParseDigits(FormatNat(magnitude));
  }

  // ---------- Prefixes ----------

  predicate HasPrefix(s: string, prefix: string) {
    prefix <= s
  }

  /** strings.TrimPrefix */
  function TrimPrefix(s: string, prefix: string): string {
    if prefix <= s then s[|prefix|..] else s
  }

  // ---------- Keys ----------

  predicate SlashFree(s: string) {
    '/' !in s
  }

  /** strings.Join(segments, "/"), with the empty text for no segment at all. */
  function Join(segments: seq<string>): string {
    if segments == [] then ""
    else if |segments| == 1 then segments[0]
    else segments[0] + "/" + Join(segments[1..])
  }

  function FirstSlash(s: string): (n: nat)
    ensures n <= |s|
  {
    if s == [] || s[0] == '/' then 0 else 1 + FirstSlash(s[1..])
  }

  lemma {:induction false} FirstSlashAfter(a: string, x: string)
    requires SlashFree(a)
    requires x == [] || x[0] == '/'
    ensures FirstSlash(a + x) == |a|
  {
    if a == [] {
      assert a + x == x;
    } else {
      assert a[0] in a;
      assert (a + x)[1..] == a[1..] + x;
      FirstSlashAfter(a[1..], x);
    }
  }

  /** Where two slash-free heads are followed by a slash or the end, they are equal. */
  lemma HeadsEqual(a: string, x: string, b: string, y: string)
    requires SlashFree(a) && SlashFree(b)
    requires x == [] || x[0] == '/'
    requires y == [] || y[0] == '/'
    requires a + x == b + y
    ensures a == b && x == y
  {
    FirstSlashAfter(a, x);
    FirstSlashAfter(b, y);
    assert a == (a + x)[..|a|] == (b + y)[..|b|] == b;
    assert x == (a + x)[|a|..] == (b + y)[|b|..] == y;
  }

  function JoinRest(segments: seq<string>): string {
    if segments == [] then "" else "/" + Join(segments)
  }

  lemma JoinSplit(segments: seq<string>)
    requires segments != []
    ensures Join(segments) == segments[0] + JoinRest(segments[1..])
  {
  }

  /** Keys written as text are equal only if they have the same segments. */
  lemma {:induction false} JoinInjective(a: seq<string>, b: seq<string>)
    requires a != [] && b != []
    requires forall i :: 0 <= i < |a| ==> SlashFree(a[i])
    requires forall i :: 0 <= i < |b| ==> SlashFree(b[i])
    requires Join(a) == Join(b)
    ensures a == b
  {
    JoinSplit(a);
    JoinSplit(b);
    HeadsEqual(a[0], JoinRest(a[1..]), b[0], JoinRest(b[1..]));
    if |a| > 1 && |b| > 1 {
      assert Join(a[1..]) == JoinRest(a[1..])[1..] == JoinRest(b[1..])[1..] == Join(b[1..]);
      JoinInjective(a[1..], b[1..]);
    }
    assert a == [a[0]] + a[1..] && b == [b[0]] + b[1..];
  }

  /** A slash-free text is a prefix of a joined key exactly when it is one of the first segment. */
  lemma JoinHasPrefix(segments: seq<string>, prefix: string)
    requires segments != [] && SlashFree(segments[0]) && SlashFree(prefix)
    ensures HasPrefix(Join(segments), prefix) <==> HasPrefix(segments[0], prefix)
  {
    JoinSplit(segments);
    var first, rest := segments[0], JoinRest(segments[1..]);
    if prefix <= first + rest {
      FirstSlashAfter(first, rest);
      PrefixBeforeSlash(first + rest, prefix);
      assert (first + rest)[..|prefix|] == first[..|prefix|];
    }
    if prefix <= first {
      assert (first + rest)[..|prefix|] == first[..|prefix|];
    }
  }

  lemma {:induction false} PrefixBeforeSlash(s: string, prefix: string)
    requires prefix <= s && SlashFree(prefix)
    ensures |prefix| <= FirstSlash(s)
  {
    if prefix != [] {
      assert prefix[0] in prefix && s[0] == prefix[0];
      PrefixBeforeSlash(s[1..], prefix[1..]);
    }
  }

  /** Prepending a text to a joined key prepends it to the first segment. */
  lemma JoinPrepend(segments: seq<string>, prefix: string)
    requires segments != []
    ensures prefix + Join(segments) == Join([prefix + segments[0]] + segments[1..])
  {
    JoinSplit(segments);
    JoinSplit([prefix + segments[0]] + segments[1..]);
    assert ([prefix + segments[0]] + segments[1..])[1..] == segments[1..];
  }
}
