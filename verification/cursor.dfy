/** The text of a pagination cursor (internal/pagination/pagination.go): an RFC 3339 timestamp, a
    bar and a UUID, in unpadded base64url (section 5 of RFC 4648). Strings are byte strings here. */
module Cursor {
  import opened Models

  // ---------------------------------------------------------------- decimal digits

  function DigitChar(d: nat): char
    requires d < 10
  {
    '0' + d as char
  }

  predicate IsDigit(c: char) { '0' <= c <= '9' }

  predicate AllDigits(s: string) {
    forall i :: 0 <= i < |s| ==> IsDigit(s[i])
  }

  function Pow10(w: nat): nat {
    if w == 0 then 1 else 10 * Pow10(w - 1)
  }

  /** `n` in `w` digits, leading zeros included. */
  function Digits(n: nat, w: nat): (s: string)
    ensures |s| == w && AllDigits(s)
  {
    if w == 0 then "" else Digits(n / 10, w - 1) + [DigitChar(n % 10)]
  }

  function Number(s: string): nat
    requires AllDigits(s)
  {
    if s == "" then 0 else 10 * Number(s[..|s| - 1]) + (s[|s| - 1] - '0') as nat
  }

  lemma {:induction false} NumberOfDigits(n: nat, w: nat)
    requires n < Pow10(w)
    ensures Number(Digits(n, w)) == n
  {
    if w > 0 {
      NumberOfDigits(n / 10, w - 1);
      assert Digits(n, w)[..w - 1] == Digits(n / 10, w - 1);
    }
  }

  function TrimZeros(s: string): (r: string)
    ensures |r| <= |s| && r == s[..|r|]
    ensures r != "" ==> r[|r| - 1] != '0'
  {
    if s != "" && s[|s| - 1] == '0' then TrimZeros(s[..|s| - 1]) else s
  }

  function Zeros(n: nat): (s: string)
    ensures |s| == n && AllDigits(s)
  {
    if n == 0 then "" else Zeros(n - 1) + "0"
  }

  lemma {:induction false} TrimmedIsPadded(s: string)
    ensures TrimZeros(s) + Zeros(|s| - |TrimZeros(s)|) == s
    decreases |s|
  {
    if s != "" && s[|s| - 1] == '0' {
      TrimmedIsPadded(s[..|s| - 1]);
      assert s == s[..|s| - 1] + "0";
    }
  }

  lemma {:induction false} AllZeros(s: string)
    requires AllDigits(s) && TrimZeros(s) == ""
    ensures Number(s) == 0
    decreases |s|
  {
    if s != "" {
      AllZeros(s[..|s| - 1]);
    }
  }

  // ---------------------------------------------------------------- RFC 3339 timestamps in UTC

  datatype Civil = Civil(year: nat, month: nat, day: nat, hour: nat, minute: nat, second: nat, nanos: nat)

  predicate IsLeap(year: nat) {
    year % 4 == 0 && (year % 100 != 0 || year % 400 == 0)
  }

  function DaysIn(year: nat, month: nat): nat {
    if month == 2 then if IsLeap(year) then 29 else 28
    else if month in {4, 6, 9, 11} then 30 else 31
  }

  predicate ValidCivil(t: Civil) {
    && t.year <= 9999 && 1 <= t.month <= 12 && 1 <= t.day <= DaysIn(t.year, t.month)
    && t.hour <= 23 && t.minute <= 59 && t.second <= 59 && t.nanos < 1_000_000_000
  }

  /** The precision of timestamptz. */
  function Truncate(t: Civil): Civil {
    t.(nanos := t.nanos - t.nanos % 1000)
  }

  function Seconds(t: Civil): (s: string)
    ensures |s| == 19
  {
    Digits(t.year, 4) + "-" + Digits(t.month, 2) + "-" + Digits(t.day, 2) + "T"
      + Digits(t.hour, 2) + ":" + Digits(t.minute, 2) + ":" + Digits(t.second, 2)
  }

  /** Trailing zeros of the fraction are dropped, and the point with them. */
  function Fraction(nanos: nat): string {
    if TrimZeros(Digits(nanos, 9)) == "" then "" else "." + TrimZeros(Digits(nanos, 9))
  }

  function Format(t: Civil): string {
    Seconds(t) + Fraction(t.nanos) + "Z"
  }

  function DigitRun(s: string): (n: nat)
    ensures n <= |s| && AllDigits(s[..n])
    ensures n < |s| ==> !IsDigit(s[n])
  {
    if s != "" && IsDigit(s[0]) then 1 + DigitRun(s[1..]) else 0
  }

  /** Digits past the ninth are cut off. */
  function Nanos(digits: string): nat
    requires AllDigits(digits)
  {
    if |digits| >= 9 then Number(digits[..9]) else Number(digits + Zeros(9 - |digits|))
  }

  /** What follows the seconds: an optional fraction, then Z. */
  function ParseTail(s: string): Option<nat> {
    if |s| > 1 && s[0] == '.' && IsDigit(s[1]) then
      var n := DigitRun(s[1..]);
      if s[1 + n..] == "Z" then Some(Nanos(s[1..][..n])) else None
    else if s == "Z" then Some(0) else None
  }

  predicate SecondsShape(s: string) {
    && |s| == 19 && s[4] == '-' && s[7] == '-' && s[10] == 'T' && s[13] == ':' && s[16] == ':'
    && AllDigits(s[..4]) && AllDigits(s[5..7]) && AllDigits(s[8..10])
    && AllDigits(s[11..13]) && AllDigits(s[14..16]) && AllDigits(s[17..19])
  }

  function Parse(s: string): Option<Civil> {
    if |s| < 20 || !SecondsShape(s[..19]) || ParseTail(s[19..]).None? then None
    else
      var a := s[..19];
      var t := Civil(Number(a[..4]), Number(a[5..7]), Number(a[8..10]), Number(a[11..13]), Number(a[14..16]), Number(a[17..19]),
                     ParseTail(s[19..]).value);
      if ValidCivil(t) then Some(t) else None
  }

  /** The text `a` has the fields of `t` in their places. */
  predicate HasFields(a: string, t: Civil) {
    && SecondsShape(a)
    && a[..4] == Digits(t.year, 4) && a[5..7] == Digits(t.month, 2) && a[8..10] == Digits(t.day, 2)
    && a[11..13] == Digits(t.hour, 2) && a[14..16] == Digits(t.minute, 2) && a[17..19] == Digits(t.second, 2)
  }

  predicate ReadsAs(a: string, t: Civil) {
    && SecondsShape(a)
    && Number(a[..4]) == t.year && Number(a[5..7]) == t.month && Number(a[8..10]) == t.day
    && Number(a[11..13]) == t.hour && Number(a[14..16]) == t.minute && Number(a[17..19]) == t.second
  }

  lemma ParseSeconds(t: Civil)
    requires ValidCivil(t)
    ensures ReadsAs(Seconds(t), t)
  {
    SecondsFields(t);
    FieldsRead(Seconds(t), t);
  }

  lemma FieldsRead(a: string, t: Civil)
    requires HasFields(a, t) && ValidCivil(t)
    ensures ReadsAs(a, t)
  {
    NumberOfYear(t.year);
    NumberOfPair(t.month);
    NumberOfPair(t.day);
    NumberOfPair(t.hour);
    NumberOfPair(t.minute);
    NumberOfPair(t.second);
  }

  lemma NumberOfYear(n: nat)
    requires n < 10_000
    ensures Number(Digits(n, 4)) == n
  {
    assert Pow10(4) == 10_000;
    NumberOfDigits(n, 4);
  }

  lemma NumberOfPair(n: nat)
    requires n < 100
    ensures Number(Digits(n, 2)) == n
  {
    assert Pow10(2) == 100;
    NumberOfDigits(n, 2);
  }

  lemma SecondsFields(t: Civil)
    ensures HasFields(Seconds(t), t)
  {
    var a := Seconds(t);
    assert a[..4] == Digits(t.year, 4) && a[5..7] == Digits(t.month, 2) && a[8..10] == Digits(t.day, 2);
    assert a[11..13] == Digits(t.hour, 2) && a[14..16] == Digits(t.minute, 2) && a[17..19] == Digits(t.second, 2);
  }

  lemma {:induction false} DigitRunOf(digits: string, tail: string)
    requires AllDigits(digits) && tail != "" && !IsDigit(tail[0])
    ensures DigitRun(digits + tail) == |digits|
  {
    if digits == "" {
      assert digits + tail == tail;
    } else {
      assert (digits + tail)[1..] == digits[1..] + tail;
      DigitRunOf(digits[1..], tail);
    }
  }

  lemma ParseFraction(nanos: nat)
    requires nanos < 1_000_000_000
    ensures ParseTail(Fraction(nanos) + "Z") == Some(nanos)
  {
    var digits := TrimZeros(Digits(nanos, 9));
    NanosOfDigits(nanos);
    if digits == "" {
      assert "" + "Z" == "Z";
    } else {
      ParsePoint(digits);
      assert Fraction(nanos) + "Z" == "." + digits + "Z";
    }
  }

  lemma TenToTheNinth()
    ensures Pow10(9) == 1_000_000_000
  {
    assert Pow10(3) == 1000;
    assert Pow10(6) == 10 * Pow10(5) == 100 * Pow10(4) == 1000 * Pow10(3);
    assert Pow10(9) == 10 * Pow10(8) == 100 * Pow10(7) == 1000 * Pow10(6);
  }

  lemma NanosOfDigits(nanos: nat)
    requires nanos < 1_000_000_000
    ensures AllDigits(TrimZeros(Digits(nanos, 9)))
    ensures Nanos(TrimZeros(Digits(nanos, 9))) == nanos
    ensures TrimZeros(Digits(nanos, 9)) == "" ==> nanos == 0
  {
    var all := Digits(nanos, 9);
    TenToTheNinth();
    NumberOfDigits(nanos, 9);
    TrimmedIsPadded(all);
    if TrimZeros(all) == "" {
      AllZeros(all);
    } else if |TrimZeros(all)| == 9 {
      assert TrimZeros(all)[..9] == all;
    }
  }

  lemma ParsePoint(digits: string)
    requires AllDigits(digits) && digits != ""
    ensures ParseTail("." + digits + "Z") == Some(Nanos(digits))
  {
    var s, n := "." + digits + "Z", |digits|;
    assert s[1..] == digits + "Z" && s[1] == digits[0];
    DigitRunOf(digits, "Z");
    assert s[1..][..n] == digits && s[1 + n..] == "Z";
  }

  lemma ParseFormat(t: Civil)
    requires ValidCivil(t)
    ensures Parse(Format(t)) == Some(t)
  {
    var s := Format(t);
    ParseSeconds(t);
    ParseFraction(t.nanos);
    assert s[..19] == Seconds(t) && s[19..] == Fraction(t.nanos) + "Z";
  }

  // ---------------------------------------------------------------- base64url without padding

  function Letter(v: nat): char
    requires v < 64
  {
    if v < 26 then 'A' + v as char
    else if v < 52 then 'a' + (v - 26) as char
    else if v < 62 then '0' + (v - 52) as char
    else if v == 62 then '-' else '_'
  }

  function Sextet(c: char): Option<nat> {
    if 'A' <= c <= 'Z' then Some((c - 'A') as nat)
    else if 'a' <= c <= 'z' then Some((c - 'a') as nat + 26)
    else if '0' <= c <= '9' then Some((c - '0') as nat + 52)
    else if c == '-' then Some(62)
    else if c == '_' then Some(63) else None
  }

  predicate IsByte(c: char) { c as int < 256 }

  predicate Bytes(s: string) {
    forall i :: 0 <= i < |s| ==> IsByte(s[i])
  }

  predicate Below(vs: seq<nat>, n: nat) {
    forall i :: 0 <= i < |vs| ==> vs[i] < n
  }

  function Codes(s: string): (b: seq<nat>)
    requires Bytes(s)
    ensures |b| == |s| && Below(b, 256) && forall i :: 0 <= i < |s| ==> b[i] == s[i] as nat
  {
    seq(|s|, i requires 0 <= i < |s| => s[i] as nat)
  }

  function Chars(b: seq<nat>): (s: string)
    requires Below(b, 256)
    ensures |s| == |b| && forall i :: 0 <= i < |b| ==> s[i] == b[i] as char
  {
    seq(|b|, i requires 0 <= i < |b| => b[i] as char)
  }

  /** Three bytes make four sextets; one or two bytes make two or three. */
  function Split(b: seq<nat>): (v: seq<nat>)
    requires Below(b, 256)
    ensures Below(v, 64)
  {
    if |b| == 0 then []
    else if |b| == 1 then [b[0] / 4, b[0] % 4 * 16]
    else if |b| == 2 then [b[0] / 4, b[0] % 4 * 16 + b[1] / 16, b[1] % 16 * 4]
    else [b[0] / 4, b[0] % 4 * 16 + b[1] / 16, b[1] % 16 * 4 + b[2] / 64, b[2] % 64] + Split(b[3..])
  }

  /** Spare bits of a short last group are ignored; a lone sextet is an error. */
  function Unsplit(v: seq<nat>): (b: Option<seq<nat>>)
    requires Below(v, 64)
    ensures b.Some? ==> Below(b.value, 256)
  {
    if |v| == 0 then Some([])
    else if |v| == 1 then None
    else if |v| == 2 then Some([v[0] * 4 + v[1] / 16])
    else if |v| == 3 then Some([v[0] * 4 + v[1] / 16, v[1] % 16 * 16 + v[2] / 4])
    else
      var rest := Unsplit(v[4..]);
      if rest.None? then None
      else Some([v[0] * 4 + v[1] / 16, v[1] % 16 * 16 + v[2] / 4, v[2] % 4 * 64 + v[3]] + rest.value)
  }

  function Letters(v: seq<nat>): (s: string)
    requires Below(v, 64)
    ensures |s| == |v|
  {
    seq(|v|, i requires 0 <= i < |v| => Letter(v[i]))
  }

  function Values(s: string): (v: Option<seq<nat>>)
    ensures v.Some? ==> |v.value| == |s| && Below(v.value, 64)
  {
    if forall i :: 0 <= i < |s| ==> Sextet(s[i]).Some?
    then Some(seq(|s|, i requires 0 <= i < |s| => SextetValue(s, i)))
    else None
  }

  function SextetValue(s: string, i: nat): (v: nat)
    requires i < |s| && Sextet(s[i]).Some?
    ensures v < 64
  {
    Sextet(s[i]).value
  }

  function Encode64(s: string): string
    requires Bytes(s)
  {
    Letters(Split(Codes(s)))
  }

  function Decode64(s: string): Option<string> {
    var v := Values(s);
    if v.None? || Unsplit(v.value).None? then None else Some(Chars(Unsplit(v.value).value))
  }

  lemma SextetOfLetter(v: nat)
    requires v < 64
    ensures Sextet(Letter(v)) == Some(v)
    ensures Letter(v) != '\r' && Letter(v) != '\n'
  {
  }

  lemma ValuesOfLetters(v: seq<nat>)
    requires Below(v, 64)
    ensures Values(Letters(v)) == Some(v)
    ensures forall c :: c in Letters(v) ==> c != '\r' && c != '\n'
  {
    forall i | 0 <= i < |v|
      ensures Sextet(Letters(v)[i]) == Some(v[i]) && Letters(v)[i] != '\r' && Letters(v)[i] != '\n'
    {
      SextetOfLetter(v[i]);
    }
    assert Values(Letters(v)).Some? && Values(Letters(v)).value == v;
  }

  lemma JoinSextets(a: nat, b: nat, c: nat)
    requires a < 256 && b < 256 && c < 256
    ensures a / 4 * 4 + (a % 4 * 16 + b / 16) / 16 == a
    ensures (a % 4 * 16 + b / 16) % 16 * 16 + (b % 16 * 4 + c / 64) / 4 == b
    ensures (b % 16 * 4 + c / 64) % 4 * 64 + c % 64 == c
  {
  }

  lemma {:induction false} UnsplitSplit(b: seq<nat>)
    requires Below(b, 256)
    ensures Unsplit(Split(b)) == Some(b)
    decreases |b|
  {
    if |b| >= 3 {
      var v := FirstGroup(b);
      UnsplitSplit(b[3..]);
      UnsplitGroup(Split(b), v, Split(b[3..]), b);
    } else if |b| > 0 {
      JoinSextets(b[0], if |b| > 1 then b[1] else 0, 0);
      assert b == if |b| == 1 then [b[0]] else [b[0], b[1]];
    }
  }

  /** The sextets `v` are those of the first three bytes of `b`. */
  predicate Groups(v: seq<nat>, b: seq<nat>) {
    && |v| == 4 && |b| >= 3
    && v[0] * 4 + v[1] / 16 == b[0] && v[1] % 16 * 16 + v[2] / 4 == b[1] && v[2] % 4 * 64 + v[3] == b[2]
  }

  lemma FirstGroup(b: seq<nat>) returns (v: seq<nat>)
    requires Below(b, 256) && |b| >= 3
    ensures Groups(v, b) && Split(b) == v + Split(b[3..])
  {
    v := [b[0] / 4, b[0] % 4 * 16 + b[1] / 16, b[1] % 16 * 4 + b[2] / 64, b[2] % 64];
    JoinSextets(b[0], b[1], b[2]);
  }

  lemma UnsplitGroup(all: seq<nat>, v: seq<nat>, tail: seq<nat>, b: seq<nat>)
    requires Below(all, 64) && Below(tail, 64) && all == v + tail && Groups(v, b) && Unsplit(tail) == Some(b[3..])
    ensures Unsplit(all) == Some(b)
  {
    assert all[4..] == tail;
    assert b == [b[0], b[1], b[2]] + b[3..];
  }

  lemma Decode64Encode64(s: string)
    requires Bytes(s)
    ensures Decode64(Encode64(s)) == Some(s)
    ensures forall c :: c in Encode64(s) ==> c != '\r' && c != '\n'
  {
    ValuesOfLetters(Split(Codes(s)));
    UnsplitSplit(Codes(s));
    assert Chars(Codes(s)) == s;
  }

  /** The decoder skips line breaks. */
  function SkipBreaks(s: string): string {
    if s == "" then "" else (if s[0] == '\r' || s[0] == '\n' then "" else [s[0]]) + SkipBreaks(s[1..])
  }

  lemma {:induction false} NothingSkipped(s: string)
    requires forall c :: c in s ==> c != '\r' && c != '\n'
    ensures SkipBreaks(s) == s
  {
    if s != "" {
      assert s[0] in s;
      assert forall c :: c in s[1..] ==> c in s;
      NothingSkipped(s[1..]);
    }
  }

  // ---------------------------------------------------------------- UUIDs

  predicate IsHex(c: char) {
    '0' <= c <= '9' || 'a' <= c <= 'f' || 'A' <= c <= 'F'
  }

  predicate IsHyphenated(s: string) {
    && |s| == 36
    && forall i :: 0 <= i < 36 ==> if i in {8, 13, 18, 23} then s[i] == '-' else IsHex(s[i])
  }

  function Lower(c: char): char {
    if 'A' <= c <= 'Z' then c - 'A' + 'a' else c
  }

  /** The forms uuid.Parse takes: plain, with the URN prefix, in braces of any kind, or bare hex. */
  predicate IsUuid(s: string) {
    || IsHyphenated(s)
    || (|s| == 45 && (forall i :: 0 <= i < 9 ==> Lower(s[i]) == "urn:uuid:"[i]) && IsHyphenated(s[9..]))
    || (|s| == 38 && IsHyphenated(s[1..37]))
    || (|s| == 32 && forall i :: 0 <= i < 32 ==> IsHex(s[i]))
  }

  // ---------------------------------------------------------------- the cursor

  function Raw(t: Civil, id: string): (r: string)
    ensures Bytes(id) ==> Bytes(r)
  {
    Format(Truncate(t)) + "|" + id
  }

  function Encode(t: Civil, id: string): string
    requires Bytes(id)
  {
    Encode64(Raw(t, id))
  }

  /** The index of the first bar, or the length. */
  function FirstBar(s: string): (n: nat)
    ensures n <= |s|
  {
    if s == "" || s[0] == '|' then 0 else 1 + FirstBar(s[1..])
  }

  datatype DecodeError = BadEncoding | BadFormat | BadTimestamp | BadId
  datatype Decoded = Decoded(t: Civil, id: string) | Refused(error: DecodeError)

  function Decode(cursor: string): Decoded {
    var b := Decode64(SkipBreaks(cursor));
    if b.None? then Refused(BadEncoding)
    else
      var n := FirstBar(b.value);
      if n == |b.value| then Refused(BadFormat)
      else
        var t := Parse(b.value[..n]);
        if t.None? then Refused(BadTimestamp)
        else if !IsUuid(b.value[n + 1..]) then Refused(BadId)
        else Decoded(t.value, b.value[n + 1..])
  }

  lemma {:induction false} FirstBarOf(a: string, b: string)
    requires '|' !in a
    ensures FirstBar(a + "|" + b) == |a|
  {
    var s := a + "|" + b;
    if a != "" {
      assert s[1..] == a[1..] + "|" + b;
      FirstBarOf(a[1..], b);
    }
  }

  lemma FormatHasNoBar(t: Civil)
    ensures '|' !in Format(t)
  {
    var f := TrimZeros(Digits(t.nanos, 9));
    forall i | 0 <= i < |Format(t)|
      ensures Format(t)[i] != '|'
    {
      assert i < 19 ==> Format(t)[i] == Seconds(t)[i];
      assert 19 < i < 19 + |Fraction(t.nanos)| ==> Format(t)[i] == f[i - 20] && IsDigit(Digits(t.nanos, 9)[i - 20]);
    }
  }

  /** Decoding an encoded cursor gives back the timestamp to the microsecond and the id unchanged,
      for every time of the years 0 to 9999; it is refused exactly when the id is no UUID. */
  lemma RoundTrip(t: Civil, id: string)
    requires ValidCivil(t) && Bytes(id)
    ensures Decode(Encode(t, id)) == if IsUuid(id) then Decoded(Truncate(t), id) else Refused(BadId)
  {
    var u, raw := Truncate(t), Raw(t, id);
    Decode64Encode64(raw);
    NothingSkipped(Encode64(raw));
    FormatHasNoBar(u);
    FirstBarOf(Format(u), id);
    var n := |Format(u)|;
    assert raw[..n] == Format(u) && raw[n + 1..] == id;
    ParseFormat(u);
  }

  /** What truncating does: the latest whole microsecond not after the time. */
  lemma TruncateMeans(t: Civil)
    ensures var u := Truncate(t);
            && u == t.(nanos := u.nanos) && u.nanos % 1000 == 0 && u.nanos <= t.nanos < u.nanos + 1000
  {
  }

  /** RFC 3339: four digits of the year and two of everything else, most significant first, and a fraction
      that is left out exactly when it is zero and never ends in a zero. */
  lemma WrittenTimestamp(t: Civil)
    requires ValidCivil(t)
    ensures Format(t)[..19] == Moment(t)
    ensures Format(t)[19..] == Fraction(t.nanos) + "Z" && (Fraction(t.nanos) == "" <==> t.nanos == 0)
    ensures t.nanos != 0 ==> |Fraction(t.nanos)| > 1 && EndsWell(Fraction(t.nanos))
  {
    WrittenMoment(t);
    WrittenFraction(t.nanos);
  }

  lemma WrittenMoment(t: Civil)
    requires ValidCivil(t)
    ensures Seconds(t) == Moment(t)
  {
    WrittenPair(t.month);
    WrittenPair(t.day);
    WrittenPair(t.hour);
    WrittenPair(t.minute);
    WrittenPair(t.second);
    WrittenYear(t.year);
  }

  function Moment(t: Civil): string
    requires ValidCivil(t)
  {
    TwoDigits(t.year / 100) + TwoDigits(t.year % 100) + "-" + TwoDigits(t.month) + "-" + TwoDigits(t.day) + "T"
      + TwoDigits(t.hour) + ":" + TwoDigits(t.minute) + ":" + TwoDigits(t.second)
  }

  function TwoDigits(n: nat): string
    requires n < 100
  {
    [DigitChar(n / 10), DigitChar(n % 10)]
  }

  lemma WrittenPair(n: nat)
    requires n < 100
    ensures Digits(n, 2) == TwoDigits(n)
  {
    assert Digits(n / 10, 1) == Digits(n / 10 / 10, 0) + [DigitChar(n / 10)];
  }

  lemma WrittenYear(n: nat)
    requires n < 10_000
    ensures Digits(n, 4) == TwoDigits(n / 100) + TwoDigits(n % 100)
  {
    assert Digits(n / 10, 3) == Digits(n / 10 / 10, 2) + [DigitChar(n / 10 % 10)];
    WrittenPair(n / 100);
  }

  lemma WrittenFraction(nanos: nat)
    requires nanos < 1_000_000_000
    ensures Fraction(nanos) == "" <==> nanos == 0
    ensures nanos != 0 ==> |Fraction(nanos)| > 1 && EndsWell(Fraction(nanos))
  {
    NanosOfDigits(nanos);
    NoDigits(nanos, 9);
    var f := TrimZeros(Digits(nanos, 9));
    if nanos != 0 {
      assert IsDigit(f[|f| - 1]) && Fraction(nanos)[|f|] == f[|f| - 1];
    }
  }

  predicate EndsWell(fraction: string)
    requires fraction != ""
  {
    fraction[0] == '.' && '1' <= fraction[|fraction| - 1] <= '9'
  }

  lemma {:induction false} NoDigits(n: nat, w: nat)
    ensures n == 0 ==> TrimZeros(Digits(n, w)) == ""
  {
    if w > 0 && n == 0 {
      NoDigits(n / 10, w - 1);
      assert Digits(n, w)[..w - 1] == Digits(n / 10, w - 1);
    }
  }

  /** Test vectors of section 10 of RFC 4648 without padding, and the two letters of its section 5. */
  lemma WrittenBase64()
    ensures Encode64("") == "" && Encode64("f") == "Zg" && Encode64("fo") == "Zm8" && Encode64("foo") == "Zm9v"
    ensures Letter(62) == '-' && Letter(63) == '_'
  {
    assert Codes("f") == [102] && Codes("fo") == [102, 111] && Codes("foo") == [102, 111, 111];
    assert Split([102]) == [25, 32] && Split([102, 111]) == [25, 38, 60] && Split([102, 111, 111]) == [25, 38, 61, 47];
    assert Letters([25, 32]) == "Zg" && Letters([25, 38, 60]) == "Zm8" && Letters([25, 38, 61, 47]) == "Zm9v";
  }
}
