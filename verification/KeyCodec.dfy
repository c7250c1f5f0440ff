/**
 * How a file's blocks are named on a key-value storage: the file id without its
 * leading slashes, a slash, and the block number counted down from 999999.
 */
module KeyCodec {
  import opened Words
  import opened Wrappers

  const MAX_OBJECT_ID: uint64 := 999999
  const MAX_OBJECT_ID_DIGITS := 6
  const OBJECT_DELIMITER := '/'
  /** The exceptions of substr and stoull. */
  datatype Error = OutOfRange | InvalidArgument

  // ------------------------------------------------------------------------
  // Decimal text
  // ------------------------------------------------------------------------

  predicate IsDigit(c: char) {
    '0' <= c <= '9'
  }

  function DigitValue(c: char): nat
    requires IsDigit(c)
  {
    c as int - '0' as int
  }

  function Digit(d: nat): (c: char)
    requires d < 10
    ensures IsDigit(c) && DigitValue(c) == d
  {
    ('0' as int + d) as char
  }

  predicate AllDigits(s: string) {
    forall i :: 0 <= i < |s| ==> IsDigit(s[i])
  }

  function Decimal(n: nat): string {
    if n < 10 then [Digit(n)] else Decimal(n / 10) + [Digit(n % 10)]
  }

  function Zeros(n: nat): string {
    if n == 0 then [] else Zeros(n - 1) + ['0']
  }

  function PadLeft(s: string, width: nat): string {
    if |s| < width then Zeros(width - |s|) + s else s
  }

  function ParseDigits(s: string): nat
    requires AllDigits(s)
  {
    if s == [] then 0 else ParseDigits(s[..|s| - 1]) * 10 + DigitValue(s[|s| - 1])
  }

  /** isspace in the C locale. */
  predicate IsSpace(c: char) {
    c == ' ' || '\t' <= c <= '\r'
  }

  function SkipSpaces(s: string): string {
    if s != [] && IsSpace(s[0]) then SkipSpaces(s[1..]) else s
  }

  function LeadingDigits(s: string): (d: string)
    ensures AllDigits(d) && d <= s
    ensures |d| < |s| ==> !IsDigit(s[|d|])
  {
    if s != [] && IsDigit(s[0]) then [s[0]] + LeadingDigits(s[1..]) else []
  }

  /** std::stoull in base ten: blanks, an optional sign, then as many digits as there are. */
  function Stoull(s: string): Result<uint64, Error> {
    var t := SkipSpaces(s);
    var signed := t != [] && (t[0] == '+' || t[0] == '-');
    var digits := LeadingDigits(if signed then t[1..] else t);
    if digits == [] then Err(InvalidArgument)
    else
      var value := ParseDigits(digits);
      if value >= UINT64_LIMIT then Err(OutOfRange)
      else if signed && t[0] == '-' then Ok(Minus(0, value))
      else Ok(value)
  }

  // ------------------------------------------------------------------------
  // Keys
  // ------------------------------------------------------------------------

  function StripSlashes(s: string): string {
    if s != [] && s[0] == OBJECT_DELIMITER then StripSlashes(s[1..]) else s
  }

  function AdjustPrefix(prefix: string): Result<string, Error> {
    var stripped := StripSlashes(prefix);
    if stripped == [] then Err(OutOfRange) else Ok(stripped + [OBJECT_DELIMITER])
  }

  function ObjectNumber(objectId: uint64): string {
    PadLeft(Decimal(Minus(MAX_OBJECT_ID, objectId)), MAX_OBJECT_ID_DIGITS)
  }

  function GetKey(prefix: string, objectId: uint64): Result<string, Error> {
    match AdjustPrefix(prefix)
    case Err(e) => Err(e)
    case Ok(p) => Ok(p + ObjectNumber(objectId))
  }

  function AfterLastSlash(key: string): string {
    if key == [] || key[|key| - 1] == OBJECT_DELIMITER then []
    else AfterLastSlash(key[..|key| - 1]) + [key[|key| - 1]]
  }

  function GetObjectId(key: string): Result<uint64, Error> {
    match Stoull(AfterLastSlash(key))
    case Err(e) => Err(e)
    case Ok(value) => Ok(Minus(MAX_OBJECT_ID, value))
  }

  /** The file id names some file: it holds a character that is not a slash. */
  predicate NamesFile(prefix: string) {
    exists i :: 0 <= i < |prefix| && prefix[i] != OBJECT_DELIMITER
  }

  // ------------------------------------------------------------------------
  // Reading back what was printed
  // ------------------------------------------------------------------------

  lemma {:induction false} ParseSnoc(s: string, c: char)
    requires AllDigits(s) && IsDigit(c)
    ensures AllDigits(s + [c]) && ParseDigits(s + [c]) == ParseDigits(s) * 10 + DigitValue(c)
  {
    assert (s + [c])[..|s|] == s;
  }

  lemma {:induction false} ParseDecimal(n: nat)
    ensures AllDigits(Decimal(n)) && ParseDigits(Decimal(n)) == n
  {
    if n < 10 {
      assert Decimal(n) == [] + [Digit(n)];
      ParseSnoc([], Digit(n));
    } else {
      var q, d := n / 10, n % 10;
      ParseDecimal(q);
      ParseSnoc(Decimal(q), Digit(d));
    }
  }

  lemma {:induction false} ParsePadded(k: nat, s: string)
    requires AllDigits(s)
    ensures AllDigits(Zeros(k) + s) && ParseDigits(Zeros(k) + s) == ParseDigits(s)
    decreases |s| + k
  {
    if s != [] {
      var init, last := s[..|s| - 1], s[|s| - 1];
      ParsePadded(k, init);
      ParseSnoc(Zeros(k) + init, last);
      assert Zeros(k) + init + [last] == Zeros(k) + s;
    } else if k > 0 {
      ParsePadded(k - 1, []);
      assert Zeros(k - 1) + [] == Zeros(k - 1) && Zeros(k) + [] == Zeros(k - 1) + ['0'];
      ParseSnoc(Zeros(k - 1), '0');
    }
  }

  lemma ParseObjectNumber(objectId: uint64)
    ensures AllDigits(ObjectNumber(objectId)) && ObjectNumber(objectId) != []
    ensures ParseDigits(ObjectNumber(objectId)) == Minus(MAX_OBJECT_ID, objectId)
  {
    var n := Minus(MAX_OBJECT_ID, objectId);
    ParseDecimal(n);
    if |Decimal(n)| < MAX_OBJECT_ID_DIGITS {
      ParsePadded(MAX_OBJECT_ID_DIGITS - |Decimal(n)|, Decimal(n));
    }
  }

  lemma {:induction false} LeadingDigitsAll(s: string)
    requires AllDigits(s)
    ensures LeadingDigits(s) == s
  {
    if s == [] {
    } else {
      LeadingDigitsAll(s[1..]);
    }
  }

  lemma {:induction false} AfterLastSlashOf(p: string, s: string)
    requires AllDigits(s)
    ensures AfterLastSlash(p + [OBJECT_DELIMITER] + s) == s
  {
    var key := p + [OBJECT_DELIMITER] + s;
    if s == [] {
    } else {
      var init := s[..|s| - 1];
      AfterLastSlashOf(p, init);
      assert key[..|key| - 1] == p + [OBJECT_DELIMITER] + init;
      assert s == init + [s[|s| - 1]];
    }
  }

  lemma {:induction false} StripKeepsName(prefix: string)
    ensures NamesFile(prefix) <==> StripSlashes(prefix) != []
  {
    if prefix != [] && prefix[0] == OBJECT_DELIMITER {
      StripKeepsName(prefix[1..]);
      assert forall i :: 0 <= i < |prefix| && prefix[i] != OBJECT_DELIMITER ==> prefix[1..][i - 1] == prefix[i];
      assert forall i :: 0 <= i < |prefix[1..]| ==> prefix[1..][i] == prefix[i + 1];
    }
  }

  lemma StoullOfDigits(s: string)
    requires AllDigits(s) && s != [] && ParseDigits(s) < UINT64_LIMIT
    ensures Stoull(s) == Ok(ParseDigits(s))
  {
    LeadingDigitsAll(s);
    assert IsDigit(s[0]);
  }

  /** A key gives back the block number it was made from, wrapped numbers included. */
  lemma KeyRoundTrip(prefix: string, objectId: uint64)
    ensures GetKey(prefix, objectId).Ok? <==> NamesFile(prefix)
    ensures NamesFile(prefix) ==> GetObjectId(GetKey(prefix, objectId).value) == Ok(objectId)
  {
    StripKeepsName(prefix);
    if NamesFile(prefix) {
      var s := ObjectNumber(objectId);
      ParseObjectNumber(objectId);
      AfterLastSlashOf(StripSlashes(prefix), s);
      StoullOfDigits(s);
      MinusTwice(MAX_OBJECT_ID, objectId);
    }
  }

  /** Two blocks share a key only when they are the same block of the same file. */
  lemma KeyInjective(p: string, i: uint64, q: string, j: uint64)
    requires NamesFile(p) && NamesFile(q)
    ensures GetKey(p, i).Ok? && GetKey(q, j).Ok?
    ensures GetKey(p, i) == GetKey(q, j) <==> StripSlashes(p) == StripSlashes(q) && i == j
  {
    KeyRoundTrip(p, i);
    KeyRoundTrip(q, j);
    if GetKey(p, i) == GetKey(q, j) {
      assert i == j;
      var s := ObjectNumber(i);
      var (a, b) := (StripSlashes(p) + [OBJECT_DELIMITER], StripSlashes(q) + [OBJECT_DELIMITER]);
      assert a + s == b + s;
      assert a == (a + s)[..|a|] == (b + s)[..|b|] == b;
      assert StripSlashes(p) == a[..|a| - 1] == b[..|b| - 1] == StripSlashes(q);
    }
  }

  // ------------------------------------------------------------------------
  // Listing order
  // ------------------------------------------------------------------------

  /** The lexicographic order in which a storage lists its keys. */
  predicate Precedes(a: string, b: string) {
    b != [] && (a == [] || a[0] < b[0] || (a[0] == b[0] && Precedes(a[1..], b[1..])))
  }

  lemma {:induction false} PrecedesSnoc(s: string, t: string, c: char, d: char)
    requires |s| == |t|
    ensures Precedes(s + [c], t + [d]) <==> Precedes(s, t) || (s == t && c < d)
  {
    if s == [] {
    } else {
      PrecedesSnoc(s[1..], t[1..], c, d);
      assert (s + [c])[1..] == s[1..] + [c] && (t + [d])[1..] == t[1..] + [d];
      assert s == [s[0]] + s[1..] && t == [t[0]] + t[1..];
    }
  }

  lemma {:induction false} PrecedesAfter(p: string, a: string, b: string)
    ensures Precedes(p + a, p + b) <==> Precedes(a, b)
  {
    if p == [] {
      assert p + a == a && p + b == b;
    } else {
      PrecedesAfter(p[1..], a, b);
      assert (p + a)[1..] == p[1..] + a && (p + b)[1..] == p[1..] + b;
    }
  }

  lemma {:induction false} EqualWidthOrder(s: string, t: string)
    requires |s| == |t| && AllDigits(s) && AllDigits(t)
    ensures ParseDigits(s) < ParseDigits(t) <==> Precedes(s, t)
    ensures ParseDigits(s) == ParseDigits(t) <==> s == t
  {
    if s == [] {
    } else {
      var n := |s| - 1;
      LastDigit(s);
      LastDigit(t);
      hide ParseDigits, Precedes, AllDigits;
      EqualWidthOrder(s[..n], t[..n]);
      PrecedesSnoc(s[..n], t[..n], s[n], t[n]);
    }
  }

  lemma LastDigit(s: string)
    requires s != [] && AllDigits(s)
    ensures var n := |s| - 1;
            && AllDigits(s[..n]) && IsDigit(s[n]) && s == s[..n] + [s[n]]
            && ParseDigits(s) == ParseDigits(s[..n]) * 10 + (s[n] as int - '0' as int)
  {
    SplitLast(s);
    assert AllDigits(s[..|s| - 1]);
  }

  lemma SplitLast(s: string)
    requires s != []
    ensures s == s[..|s| - 1] + [s[|s| - 1]]
  {
  }

  ghost function Pow10(k: nat): nat {
    if k == 0 then 1 else 10 * Pow10(k - 1)
  }

  lemma {:induction false} DecimalWidth(n: nat, k: nat)
    requires k > 0 && n < Pow10(k)
    ensures 0 < |Decimal(n)| <= k
  {
    if n >= 10 {
      assert k == 1 ==> Pow10(k) == 10;
      DecimalWidth(n / 10, k - 1);
    }
  }

  lemma {:induction false} DecimalLong(n: nat, k: nat)
    requires n >= Pow10(k)
    ensures |Decimal(n)| > k
  {
    if k == 0 {
    } else {
      DecimalLong(n / 10, k - 1);
    }
  }

  lemma {:induction false} DecimalLeadsNonZero(n: nat)
    requires n > 0
    ensures Decimal(n) != [] && Decimal(n)[0] != '0' && AllDigits(Decimal(n))
  {
    ParseDecimal(n);
    if n >= 10 {
      DecimalLeadsNonZero(n / 10);
    }
  }

  lemma ShortNumbers(i: uint64)
    requires i <= MAX_OBJECT_ID
    ensures |ObjectNumber(i)| == MAX_OBJECT_ID_DIGITS
  {
    assert Pow10(6) == 1000000;
    DecimalWidth(MAX_OBJECT_ID - i, 6);
  }

  lemma KeysOrderedByNumber(prefix: string, i: uint64, j: uint64)
    requires NamesFile(prefix)
    ensures GetKey(prefix, i).Ok? && GetKey(prefix, j).Ok?
    ensures Precedes(GetKey(prefix, i).value, GetKey(prefix, j).value) <==> Precedes(ObjectNumber(i), ObjectNumber(j))
  {
    StripKeepsName(prefix);
    var p, a, b := StripSlashes(prefix) + [OBJECT_DELIMITER], ObjectNumber(i), ObjectNumber(j);
    PrecedesAfter(p, a, b);
  }

  /** Within the documented range keys are listed in reverse block order. */
  lemma KeyOrderReversed(prefix: string, i: uint64, j: uint64)
    requires NamesFile(prefix) && i <= MAX_OBJECT_ID && j <= MAX_OBJECT_ID
    ensures GetKey(prefix, i).Ok? && GetKey(prefix, j).Ok?
    ensures Precedes(GetKey(prefix, i).value, GetKey(prefix, j).value) <==> j < i
  {
    hide GetKey, Precedes, ObjectNumber, ParseDigits;
    ShortNumbers(i);
    ShortNumbers(j);
    ParseObjectNumber(i);
    ParseObjectNumber(j);
    EqualWidthOrder(ObjectNumber(i), ObjectNumber(j));
    KeysOrderedByNumber(prefix, i, j);
  }

  ghost predicate ReverseListing(prefix: string, last: uint64)
    requires NamesFile(prefix)
  {
    forall i: uint64, j: uint64 :: i < j <= last ==> KeyPrecedes(prefix, j, i)
  }

  ghost predicate KeyPrecedes(prefix: string, i: uint64, j: uint64) {
    GetKey(prefix, i).Ok? && GetKey(prefix, j).Ok? && Precedes(GetKey(prefix, i).value, GetKey(prefix, j).value)
  }

  lemma WrappedNumberLeads()
    ensures Precedes(ObjectNumber(MAX_OBJECT_ID), ObjectNumber(MAX_OBJECT_ID + 1))
    ensures !Precedes(ObjectNumber(MAX_OBJECT_ID + 1), ObjectNumber(MAX_OBJECT_ID))
  {
    var n := Minus(MAX_OBJECT_ID, MAX_OBJECT_ID + 1);
    DecimalLeadsNonZero(n);
    assert Pow10(6) == 1000000;
    DecimalLong(n, 6);
    assert ObjectNumber(MAX_OBJECT_ID + 1) == Decimal(n);
    assert Decimal(0) == ['0'] && Zeros(5)[0] == '0';
    assert ObjectNumber(MAX_OBJECT_ID)[0] == '0';
  }

  /** The reverse order ends exactly at MAX_OBJECT_ID: the next number wraps and is listed after it. */
  lemma ReverseListingRange(prefix: string, last: uint64)
    requires NamesFile(prefix)
    ensures ReverseListing(prefix, last) <==> last <= MAX_OBJECT_ID
  {
    if last <= MAX_OBJECT_ID {
      forall i: uint64, j: uint64 | i < j <= last ensures KeyPrecedes(prefix, j, i) {
        KeyOrderReversed(prefix, j, i);
      }
    } else {
      var i, j := MAX_OBJECT_ID, MAX_OBJECT_ID + 1;
      WrappedNumberLeads();
      KeysOrderedByNumber(prefix, j, i);
      assert !KeyPrecedes(prefix, j, i);
    }
  }
}
