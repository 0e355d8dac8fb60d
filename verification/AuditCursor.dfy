/** The paging cursor: a timestamp and a row id as JSON text in URL-safe base64. */
module AuditCursor {
  import opened Options
  import opened Calendar
  import opened Instants

  const DAY_MICROS := 86_400_000_000

  /** What Python's `datetime` can hold. */
  predicate Representable(t: Instant) {
    Valid(t.date) && 1 <= t.date.year <= 9999 && 0 <= t.micros < DAY_MICROS
  }

  datatype Cursor = Cursor(createdAt: Instant, id: nat)

  // ----- decimal numerals

  function Digit(n: int): char
    requires 0 <= n <= 9
  {
    ('0' as int + n) as char
  }

  function Decimal(n: nat): string {
    if n < 10 then [Digit(n)] else Decimal(n / 10) + [Digit(n % 10)]
  }

  /** The last `width` decimal digits. */
  function Padded(n: nat, width: nat): string {
    if width == 0 then "" else Padded(n / 10, width - 1) + [Digit(n % 10)]
  }

  function ParseDigits(s: string): Option<nat> {
    if s == "" then Some(0)
    else
      var front, c := ParseDigits(s[..|s| - 1]), s[|s| - 1];
      if front.None? || !('0' <= c <= '9') then None
      else Some(10 * front.value + (c as int - '0' as int))
  }

  lemma ParseAppend(s: string, d: int)
    requires 0 <= d <= 9 && ParseDigits(s).Some?
    ensures ParseDigits(s + [Digit(d)]) == Some(10 * ParseDigits(s).value + d)
  {
    assert (s + [Digit(d)])[..|s|] == s;
  }

  lemma {:induction false} DecimalRoundTrip(n: nat)
    ensures ParseDigits(Decimal(n)) == Some(n)
    ensures Decimal(n) != "" && forall c :: c in Decimal(n) ==> '0' <= c <= '9'
  {
    if n < 10 {
      ParseAppend("", n);
      assert "" + [Digit(n)] == [Digit(n)];
    } else {
      DecimalRoundTrip(n / 10);
      ParseAppend(Decimal(n / 10), n % 10);
    }
  }

  function Pow10(n: nat): nat {
    if n == 0 then 1 else 10 * Pow10(n - 1)
  }

  lemma {:induction false} PaddedRoundTrip(n: nat, width: nat)
    requires n < Pow10(width)
    ensures ParseDigits(Padded(n, width)) == Some(n) && |Padded(n, width)| == width
    ensures forall c :: c in Padded(n, width) ==> '0' <= c <= '9'
  {
    if width > 0 {
      PaddedRoundTrip(n / 10, width - 1);
      ParseAppend(Padded(n / 10, width - 1), n % 10);
    }
  }

  // ----- reading from the front

  function DropPrefix(prefix: string, s: string): Option<string> {
    if prefix <= s then Some(s[|prefix|..]) else None
  }

  lemma DropPrefixReads(prefix: string, rest: string)
    ensures DropPrefix(prefix, prefix + rest) == Some(rest)
  {
    assert (prefix + rest)[|prefix|..] == rest;
  }

  /** Reads `width` digits and the text that must follow them; what is left comes second. */
  function TakeField(s: string, width: nat, stop: string): Option<(nat, string)> {
    if |s| < width then None
    else
      var n, rest := ParseDigits(s[..width]), DropPrefix(stop, s[width..]);
      if n.None? || rest.None? then None else Some((n.value, rest.value))
  }

  lemma TakeFieldReads(digits: string, stop: string, rest: string)
    requires ParseDigits(digits).Some?
    ensures TakeField(digits + (stop + rest), |digits|, stop) == Some((ParseDigits(digits).value, rest))
  {
    var s := digits + (stop + rest);
    assert s[..|digits|] == digits && s[|digits|..] == stop + rest;
    DropPrefixReads(stop, rest);
  }

  /** The text before the first `stop`, and the text after it. */
  function Until(stop: char, s: string): Option<(string, string)> {
    if s == "" then None
    else if s[0] == stop then Some(("", s[1..]))
    else
      var rest := Until(stop, s[1..]);
      if rest.None? then None else Some(([s[0]] + rest.value.0, rest.value.1))
  }

  lemma {:induction false} UntilFinds(stop: char, head: string, tail: string)
    requires stop !in head
    ensures Until(stop, head + ([stop] + tail)) == Some((head, tail))
  {
    var s := head + ([stop] + tail);
    if head == "" {
      assert s[1..] == tail;
    } else {
      assert s[1..] == head[1..] + ([stop] + tail);
      UntilFinds(stop, head[1..], tail);
      assert [s[0]] + head[1..] == head;
    }
  }

  // ----- ISO 8601 text

  function Seconds(t: Instant): int { t.micros / 1_000_000 }
  function Hour(t: Instant): int { Seconds(t) / 60 / 60 }
  function Minute(t: Instant): int { Seconds(t) / 60 % 60 }
  function Second(t: Instant): int { Seconds(t) % 60 }
  function Fraction(t: Instant): int { t.micros % 1_000_000 }

  function Micros(hour: int, minute: int, second: int, fraction: int): int {
    ((hour * 60 + minute) * 60 + second) * 1_000_000 + fraction
  }

  lemma TimeOfDay(t: Instant)
    requires Representable(t)
    ensures 0 <= Hour(t) <= 23 && 0 <= Minute(t) <= 59 && 0 <= Second(t) <= 59 && 0 <= Fraction(t) < 1_000_000
    ensures t.micros == Micros(Hour(t), Minute(t), Second(t), Fraction(t))
  {
    var s := Seconds(t);
    assert 0 <= s < 86_400;
    assert s == 60 * (s / 60) + s % 60;
  }

  /** The seconds are followed by the fraction, unless it is zero, and the UTC offset. */
  function FractionText(t: Instant): string
    requires Representable(t)
  {
    if Fraction(t) == 0 then "+00:00" else "." + (Padded(Fraction(t), 6) + ("+00:00" + ""))
  }

  function TimeText(t: Instant): string
    requires Representable(t)
  {
    TimeOfDay(t);
    Padded(Hour(t), 2) + (":" + (Padded(Minute(t), 2) + (":" + (Padded(Second(t), 2) + ("" + FractionText(t))))))
  }

  /** `isoformat` of a UTC timestamp. */
  function IsoFormat(t: Instant): string
    requires Representable(t)
  {
    Padded(t.date.year, 4) + ("-" + (Padded(t.date.month, 2) + ("-" + (Padded(t.date.day, 2) + ("T" + TimeText(t))))))
  }

  function ParseFraction(s: string): Option<int> {
    if s == "+00:00" then Some(0)
    else if s == "" || s[0] != '.' then None
    else
      var f := TakeField(s[1..], 6, "+00:00");
      if f.None? || f.value.1 != "" then None else Some(f.value.0)
  }

  function ParseTime(s: string): Option<int> {
    var hour := TakeField(s, 2, ":");
    if hour.None? || hour.value.0 > 23 then None
    else
      var minute := TakeField(hour.value.1, 2, ":");
      if minute.None? || minute.value.0 > 59 then None
      else
        var second := TakeField(minute.value.1, 2, "");
        if second.None? || second.value.0 > 59 then None
        else
          var fraction := ParseFraction(second.value.1);
          if fraction.None? then None
          else Some(Micros(hour.value.0, minute.value.0, second.value.0, fraction.value))
  }

  function ParseIso(s: string): Option<Instant> {
    var year := TakeField(s, 4, "-");
    if year.None? then None
    else
      var month := TakeField(year.value.1, 2, "-");
      if month.None? then None
      else
        var day := TakeField(month.value.1, 2, "T");
        if day.None? then None
        else
          var micros := ParseTime(day.value.1);
          var date := Date(year.value.0, month.value.0, day.value.0);
          if micros.None? || !Representable(Instant(date, micros.value)) then None
          else Some(Instant(date, micros.value))
  }

  lemma PaddedField(n: nat, width: nat, stop: string, rest: string)
    requires n < Pow10(width)
    ensures TakeField(Padded(n, width) + (stop + rest), width, stop) == Some((n, rest))
  {
    PaddedRoundTrip(n, width);
    TakeFieldReads(Padded(n, width), stop, rest);
  }

  lemma Powers()
    ensures Pow10(2) == 100 && Pow10(4) == 10_000 && Pow10(6) == 1_000_000
  {
  }

  lemma TimeRoundTrip(t: Instant)
    requires Representable(t)
    ensures ParseTime(TimeText(t)) == Some(t.micros)
  {
    Powers();
    TimeOfDay(t);
    var fraction := FractionText(t);
    if Fraction(t) != 0 {
      PaddedField(Fraction(t), 6, "+00:00", "");
      assert fraction[1..] == Padded(Fraction(t), 6) + ("+00:00" + "");
    }
    PaddedField(Second(t), 2, "", fraction);
    var afterMinute := Padded(Second(t), 2) + ("" + fraction);
    PaddedField(Minute(t), 2, ":", afterMinute);
    PaddedField(Hour(t), 2, ":", Padded(Minute(t), 2) + (":" + afterMinute));
  }

  lemma IsoRoundTrip(t: Instant)
    requires Representable(t)
    ensures ParseIso(IsoFormat(t)) == Some(t)
  {
    Powers();
    TimeRoundTrip(t);
    PaddedField(t.date.day, 2, "T", TimeText(t));
    var afterMonth := Padded(t.date.day, 2) + ("T" + TimeText(t));
    PaddedField(t.date.month, 2, "-", afterMonth);
    PaddedField(t.date.year, 4, "-", Padded(t.date.month, 2) + ("-" + afterMonth));
  }

  // ----- JSON text

  const OPENING := "{\"created_at\":\""
  const MIDDLE := ",\"id\":"

  function Payload(c: Cursor): string
    requires Representable(c.createdAt)
  {
    OPENING + (IsoFormat(c.createdAt) + ("\"" + (MIDDLE + (Decimal(c.id) + ("}" + "")))))
  }

  function ParsePayload(s: string): Option<Cursor> {
    var body := DropPrefix(OPENING, s);
    if body.None? then None
    else
      var time := Until('"', body.value);
      if time.None? then None
      else
        var tail := DropPrefix(MIDDLE, time.value.1);
        if tail.None? then None
        else
          var number := Until('}', tail.value);
          if number.None? || number.value.0 == "" || number.value.1 != "" then None
          else
            var createdAt, id := ParseIso(time.value.0), ParseDigits(number.value.0);
            if createdAt.None? || id.None? then None else Some(Cursor(createdAt.value, id.value))
  }

  /** The characters an ISO timestamp is made of. */
  predicate Plain(s: string) {
    forall i :: 0 <= i < |s| ==> s[i] as int < 128 && s[i] != '"' && s[i] != '}'
  }

  lemma PlainAppend(a: string, b: string)
    requires Plain(a) && Plain(b)
    ensures Plain(a + b)
  {
  }

  lemma {:induction false} PaddedPlain(n: nat, width: nat)
    ensures Plain(Padded(n, width))
  {
    if width > 0 {
      PaddedPlain(n / 10, width - 1);
    }
  }

  lemma {:induction false} DecimalPlain(n: nat)
    ensures Plain(Decimal(n)) && Decimal(n) != ""
  {
    if n >= 10 {
      DecimalPlain(n / 10);
    }
  }

  lemma FieldPlain(n: nat, width: nat, stop: string, rest: string)
    requires Plain(stop) && Plain(rest)
    ensures Plain(Padded(n, width) + (stop + rest))
  {
    PaddedPlain(n, width);
    PlainAppend(stop, rest);
    PlainAppend(Padded(n, width), stop + rest);
  }

  lemma IsoPlain(t: Instant)
    requires Representable(t)
    ensures Plain(IsoFormat(t))
  {
    TimeOfDay(t);
    var fraction := FractionText(t);
    FieldPlain(Fraction(t), 6, "+00:00", "");
    PlainAppend(".", Padded(Fraction(t), 6) + ("+00:00" + ""));
    FieldPlain(Second(t), 2, "", fraction);
    FieldPlain(Minute(t), 2, ":", Padded(Second(t), 2) + ("" + fraction));
    FieldPlain(Hour(t), 2, ":", Padded(Minute(t), 2) + (":" + (Padded(Second(t), 2) + ("" + fraction))));
    FieldPlain(t.date.day, 2, "T", TimeText(t));
    FieldPlain(t.date.month, 2, "-", Padded(t.date.day, 2) + ("T" + TimeText(t)));
    FieldPlain(t.date.year, 4, "-", Padded(t.date.month, 2) + ("-" + (Padded(t.date.day, 2) + ("T" + TimeText(t)))));
  }

  lemma PayloadRoundTrip(c: Cursor)
    requires Representable(c.createdAt)
    ensures ParsePayload(Payload(c)) == Some(c)
  {
    var iso, number := IsoFormat(c.createdAt), Decimal(c.id);
    IsoRoundTrip(c.createdAt);
    IsoPlain(c.createdAt);
    DecimalRoundTrip(c.id);
    DecimalPlain(c.id);
    UntilFinds('}', number, "");
    DropPrefixReads(MIDDLE, number + ("}" + ""));
    UntilFinds('"', iso, MIDDLE + (number + ("}" + "")));
    DropPrefixReads(OPENING, iso + ("\"" + (MIDDLE + (number + ("}" + "")))));
  }

  /** The number a text of that many digits stands for, and -1 for any other text. */
  function Number(s: string, width: nat): int {
    if |s| == width && ParseDigits(s).Some? then ParseDigits(s).value else -1
  }

  lemma PaddedNumber(n: nat, width: nat)
    requires n < Pow10(width)
    ensures Number(Padded(n, width), width) == n
  {
    PaddedRoundTrip(n, width);
  }

  /** The fields of a timestamp in the order of ISO 8601, each a decimal number of fixed width;
      the fraction of a second is left out where it is zero. */
  predicate IsoFields(s: string, t: Instant, year: string, month: string, day: string, hour: string, minute: string,
                      second: string, fraction: string) {
    && s == year + "-" + month + "-" + day + "T" + hour + ":" + minute + ":" + second + fraction + "+00:00"
    && Number(year, 4) == t.date.year && Number(month, 2) == t.date.month && Number(day, 2) == t.date.day
    && (fraction == "" || (fraction[0] == '.' && Number(fraction[1..], 6) > 0))
    && 0 <= Number(hour, 2) && 0 <= Number(minute, 2) < 60 && 0 <= Number(second, 2) < 60
    && t.micros == ((Number(hour, 2) * 60 + Number(minute, 2)) * 60 + Number(second, 2)) * 1_000_000
                   + (if fraction == "" then 0 else Number(fraction[1..], 6))
  }

  lemma IsoExactly(t: Instant) returns (year: string, month: string, day: string, hour: string, minute: string,
                                        second: string, fraction: string)
    requires Representable(t)
    ensures IsoFields(IsoFormat(t), t, year, month, day, hour, minute, second, fraction)
  {
    Powers();
    TimeOfDay(t);
    year, month, day := Padded(t.date.year, 4), Padded(t.date.month, 2), Padded(t.date.day, 2);
    hour, minute, second := Padded(Hour(t), 2), Padded(Minute(t), 2), Padded(Second(t), 2);
    var digits := Padded(Fraction(t), 6);
    fraction := if Fraction(t) == 0 then "" else "." + digits;
    PaddedNumber(t.date.year, 4);
    PaddedNumber(t.date.month, 2);
    PaddedNumber(t.date.day, 2);
    PaddedNumber(Hour(t), 2);
    PaddedNumber(Minute(t), 2);
    PaddedNumber(Second(t), 2);
    PaddedNumber(Fraction(t), 6);
    assert FractionText(t) == fraction + "+00:00";
    JoinedIso(year, month, day, hour, minute, second, fraction);
    assert Fraction(t) != 0 ==> fraction[1..] == digits;
  }

  lemma JoinedIso(year: string, month: string, day: string, hour: string, minute: string, second: string, fraction: string)
    ensures year + ("-" + (month + ("-" + (day + ("T" +
              (hour + (":" + (minute + (":" + (second + ("" + (fraction + "+00:00")))))))))))) ==
            year + "-" + month + "-" + day + "T" + hour + ":" + minute + ":" + second + fraction + "+00:00"
  {
  }

  lemma PayloadText(c: Cursor)
    requires Representable(c.createdAt)
    ensures Payload(c) == "{\"created_at\":\"" + IsoFormat(c.createdAt) + "\",\"id\":" + Decimal(c.id) + "}"
  {
    var front, iso, id := "{\"created_at\":\"", IsoFormat(c.createdAt), Decimal(c.id);
    assert OPENING == front && "\"" + MIDDLE == "\",\"id\":";
    Regrouped(front, iso, "\"", MIDDLE, id, "}");
  }

  lemma Regrouped(a: string, b: string, c: string, d: string, e: string, f: string)
    ensures a + (b + (c + (d + (e + (f + ""))))) == a + b + (c + d) + e + f
  {
  }

  // ----- URL-safe base64

  function Letter(k: int): char
    requires 0 <= k < 64
  {
    if k < 26 then ('A' as int + k) as char
    else if k < 52 then ('a' as int + (k - 26)) as char
    else if k < 62 then ('0' as int + (k - 52)) as char
    else if k == 62 then '-' else '_'
  }

  function Sextet(c: char): Option<int> {
    if 'A' <= c <= 'Z' then Some(c as int - 'A' as int)
    else if 'a' <= c <= 'z' then Some(c as int - 'a' as int + 26)
    else if '0' <= c <= '9' then Some(c as int - '0' as int + 52)
    else if c == '-' then Some(62) else if c == '_' then Some(63) else None
  }

  /** The alphabet of section 5 of RFC 4648: capitals, small letters, digits, `-` and `_`. */
  lemma LetterRoundTrip(k: int)
    requires 0 <= k < 64
    ensures Sextet(Letter(k)) == Some(k) && Letter(k) != '='
    ensures Letter(k) as int == if k < 26 then 65 + k else if k < 52 then 71 + k else if k < 62 then k - 4
                                else if k == 62 then 45 else 95
  {
  }

  predicate Bytes(b: seq<int>) {
    forall i :: 0 <= i < |b| ==> 0 <= b[i] < 256
  }

  function Base64(b: seq<int>): string
    requires Bytes(b)
  {
    if |b| == 0 then ""
    else if |b| == 1 then [Letter(b[0] / 4), Letter(b[0] % 4 * 16), '=', '=']
    else if |b| == 2 then
      [Letter(b[0] / 4), Letter(b[0] % 4 * 16 + b[1] / 16), Letter(b[1] % 16 * 4), '=']
    else
      [Letter(b[0] / 4), Letter(b[0] % 4 * 16 + b[1] / 16), Letter(b[1] % 16 * 4 + b[2] / 64), Letter(b[2] % 64)]
      + Base64(b[3..])
  }

  function Unbase64(s: string): Option<seq<int>> {
    if s == "" then Some([])
    else if |s| < 4 then None
    else
      var p, q := Sextet(s[0]), Sextet(s[1]);
      if p.None? || q.None? then None
      else
        var first := p.value * 4 + q.value / 16;
        if s[2..] == "==" then Some([first])
        else
          var r := Sextet(s[2]);
          if r.None? then None
          else
            var second := q.value % 16 * 16 + r.value / 4;
            if s[3..] == "=" then Some([first, second])
            else
              var t, rest := Sextet(s[3]), Unbase64(s[4..]);
              if t.None? || rest.None? then None
              else Some([first, second, r.value % 4 * 64 + t.value] + rest.value)
  }

  /** Each three bytes are one number, written with four letters, most significant first; at
      the end missing bytes count as zero, and a letter for missing bytes alone is `=`. */
  lemma {:induction false} Base64Groups(b: seq<int>, i: nat) returns (p: int, q: int, r: int, t: int)
    requires Bytes(b) && 3 * i < |b|
    ensures 0 <= p < 64 && 0 <= q < 64 && 0 <= r < 64 && 0 <= t < 64
    ensures 262144 * p + 4096 * q + 64 * r + t ==
              65536 * b[3 * i] + 256 * (if 3 * i + 1 < |b| then b[3 * i + 1] else 0)
              + (if 3 * i + 2 < |b| then b[3 * i + 2] else 0)
    ensures |Base64(b)| >= 4 * i + 4
    ensures Base64(b)[4 * i..4 * i + 4] == [Letter(p), Letter(q), if 3 * i + 1 < |b| then Letter(r) else '=',
                                            if 3 * i + 2 < |b| then Letter(t) else '=']
  {
    if i == 0 {
      var y, z := if 1 < |b| then b[1] else 0, if 2 < |b| then b[2] else 0;
      SplitTriple(b[0], y, z);
      p, q, r, t := b[0] / 4, b[0] % 4 * 16 + y / 16, y % 16 * 4 + z / 64, z % 64;
    } else {
      p, q, r, t := Base64Groups(b[3..], i - 1);
      GroupAfter(b, i);
    }
  }

  lemma GroupAfter(b: seq<int>, i: nat)
    requires Bytes(b) && 0 < i && 3 * i < |b| && |Base64(b[3..])| >= 4 * i
    ensures |Base64(b)| >= 4 * i + 4 && Base64(b)[4 * i..4 * i + 4] == Base64(b[3..])[4 * i - 4..4 * i]
  {
    var first, rest := Base64(b)[..4], Base64(b[3..]);
    assert Base64(b) == first + rest;
    assert (first + rest)[4 * i..4 * i + 4] == rest[4 * i - 4..4 * i];
  }

  lemma {:induction false} Base64RoundTrip(b: seq<int>)
    requires Bytes(b)
    ensures Unbase64(Base64(b)) == Some(b)
    decreases |b|, 1
  {
    if |b| == 0 {
    } else if |b| == 1 {
      SplitTriple(b[0], 0, 0);
      assert b == [b[0]];
      LetterRoundTrip(b[0] / 4);
      LetterRoundTrip(b[0] % 4 * 16);
      assert Base64(b)[2..] == "==";
    } else if |b| == 2 {
      SplitTriple(b[0], b[1], 0);
      assert b == [b[0], b[1]];
      LetterRoundTrip(b[0] / 4);
      LetterRoundTrip(b[0] % 4 * 16 + b[1] / 16);
      LetterRoundTrip(b[1] % 16 * 4);
      assert Base64(b)[3..] == "=";
    } else {
      TripleRoundTrip(b);
    }
  }

  /** Three bytes are four sextets and back. */
  lemma SplitTriple(x: int, y: int, z: int)
    requires 0 <= x < 256 && 0 <= y < 256 && 0 <= z < 256
    ensures var p, q, r, t := x / 4, x % 4 * 16 + y / 16, y % 16 * 4 + z / 64, z % 64;
      && 0 <= p < 64 && 0 <= q < 64 && 0 <= r < 64 && 0 <= t < 64
      && p * 4 + q / 16 == x && q % 16 * 16 + r / 4 == y && r % 4 * 64 + t == z
  {
  }

  lemma {:induction false} TripleRoundTrip(b: seq<int>)
    requires Bytes(b) && |b| >= 3
    ensures Unbase64(Base64(b)) == Some(b)
    decreases |b|, 0
  {
    SplitTriple(b[0], b[1], b[2]);
    Base64RoundTrip(b[3..]);
    QuadDecodes(b[0] / 4, b[0] % 4 * 16 + b[1] / 16, b[1] % 16 * 4 + b[2] / 64, b[2] % 64,
                b[0], b[1], b[2], Base64(b[3..]));
    FirstThree(b);
  }

  lemma FirstThree(b: seq<int>)
    requires |b| >= 3
    ensures b == [b[0], b[1], b[2]] + b[3..]
  {
  }

  lemma QuadDecodes(p: int, q: int, r: int, t: int, x: int, y: int, z: int, rest: string)
    requires 0 <= p < 64 && 0 <= q < 64 && 0 <= r < 64 && 0 <= t < 64
    requires p * 4 + q / 16 == x && q % 16 * 16 + r / 4 == y && r % 4 * 64 + t == z
    requires Unbase64(rest).Some?
    ensures Unbase64([Letter(p), Letter(q), Letter(r), Letter(t)] + rest) == Some([x, y, z] + Unbase64(rest).value)
  {
    var s := [Letter(p), Letter(q), Letter(r), Letter(t)] + rest;
    LetterRoundTrip(p);
    LetterRoundTrip(q);
    LetterRoundTrip(r);
    LetterRoundTrip(t);
    assert s[4..] == rest;
    assert s[2..][0] == s[2] && s[3..][0] == s[3];
  }

  // ----- the cursor

  function Codes(s: string): seq<int> {
    seq(|s|, i requires 0 <= i < |s| => s[i] as int)
  }

  function Chars(b: seq<int>): Option<string> {
    if forall i :: 0 <= i < |b| ==> 0 <= b[i] < 128
    then Some(seq(|b|, i requires 0 <= i < |b| => if 0 <= b[i] < 128 then b[i] as char else ' '))
    else None
  }

  predicate Ascii(s: string) {
    forall i :: 0 <= i < |s| ==> s[i] as int < 128
  }

  lemma PayloadAscii(c: Cursor)
    requires Representable(c.createdAt)
    ensures Ascii(Payload(c))
  {
    var number := Decimal(c.id);
    IsoPlain(c.createdAt);
    DecimalPlain(c.id);
    AsciiAppend(number, "}" + "");
    AsciiAppend(MIDDLE, number + ("}" + ""));
    AsciiAppend("\"", MIDDLE + (number + ("}" + "")));
    AsciiAppend(IsoFormat(c.createdAt), "\"" + (MIDDLE + (number + ("}" + ""))));
    AsciiAppend(OPENING, IsoFormat(c.createdAt) + ("\"" + (MIDDLE + (number + ("}" + "")))));
  }

  lemma AsciiAppend(a: string, b: string)
    requires Ascii(a) && Ascii(b)
    ensures Ascii(a + b)
  {
  }

  function EncodeCursor(c: Cursor): string
    requires Representable(c.createdAt)
  {
    PayloadAscii(c);
    Base64(Codes(Payload(c)))
  }

  /** An unreadable cursor is the same as none: the listing starts from the top. */
  function DecodeCursor(cursor: string): Option<Cursor> {
    if cursor == "" then None
    else
      var bytes := Unbase64(cursor);
      if bytes.None? then None
      else
        var text := Chars(bytes.value);
        if text.None? then None else ParsePayload(text.value)
  }

  /** Decoding inverts encoding for every timestamp and row id. */
  lemma CursorRoundTrip(c: Cursor)
    requires Representable(c.createdAt)
    ensures DecodeCursor(EncodeCursor(c)) == Some(c)
  {
    var payload := Payload(c);
    PayloadAscii(c);
    Base64RoundTrip(Codes(payload));
    assert Chars(Codes(payload)).value == payload;
    PayloadRoundTrip(c);
  }
}
