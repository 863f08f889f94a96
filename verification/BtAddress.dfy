/** Bluetooth addresses as text: `ba2str`, and `str2ba` on top of `strtoul` (section 7.20.1.4 of ISO C99). */
module BtAddress {
  import opened Basics

  type Byte = x: int | 0 <= x < 256

  const ULONG_MAX := 0xFFFF_FFFF

  // strtoul(s + pos, &end, 16), the string ending where a terminating NUL stands

  function HexValue(c: char): int {
    if '0' <= c <= '9' then c as int - '0' as int
    else if 'A' <= c <= 'F' then c as int - 'A' as int + 10
    else if 'a' <= c <= 'f' then c as int - 'a' as int + 10
    else -1
  }

  predicate HexAt(s: string, pos: nat) {
    pos < |s| && HexValue(s[pos]) >= 0
  }

  predicate IsSpace(c: char) {
    c == ' ' || 9 <= c as int <= 13
  }

  function SkipSpaces(s: string, pos: nat): (r: nat)
    requires pos <= |s|
    ensures pos <= r <= |s|
    decreases |s| - pos
  {
    if pos < |s| && IsSpace(s[pos]) then SkipSpaces(s, pos + 1) else pos
  }

  function SkipSign(s: string, pos: nat): (r: nat)
    requires pos <= |s|
    ensures pos <= r <= |s|
  {
    if pos < |s| && (s[pos] == '+' || s[pos] == '-') then pos + 1 else pos
  }

  /** The `0x` belongs to the number only if a digit follows it. */
  function SkipPrefix(s: string, pos: nat): (r: nat)
    requires pos <= |s|
    ensures pos <= r <= |s|
  {
    if HexAt(s, pos + 2) && s[pos] == '0' && (s[pos + 1] == 'x' || s[pos + 1] == 'X') then pos + 2 else pos
  }

  /** The digits from `pos` on, `before` being what the ones read so far are worth. */
  function Digits(s: string, pos: nat, before: nat): (r: (nat, nat))
    requires pos <= |s|
    ensures pos <= r.1 <= |s|
    decreases |s| - pos
  {
    if HexAt(s, pos) then Digits(s, pos + 1, before * 16 + HexValue(s[pos])) else (before, pos)
  }

  /** The value and where the number ends: at `pos` itself, with value 0, when there is no number. */
  function Strtoul(s: string, pos: nat): (r: (nat, nat))
    requires pos <= |s|
    ensures r.0 <= ULONG_MAX && pos <= r.1 <= |s|
  {
    var sign := SkipSpaces(s, pos);
    var start := SkipPrefix(s, SkipSign(s, sign));
    if !HexAt(s, start) then (0, pos)
    else
      var (value, end) := Digits(s, start, 0);
      if value > ULONG_MAX then (ULONG_MAX, end)
      else if s[sign] == '-' then ((ULONG_MAX + 1 - value) % (ULONG_MAX + 1), end)
      else (value, end)
  }

  /**
   * The bytes `i` down to 0 from the text at `pos`, in front of the higher ones in `done`;
   * `None` when the scan would pass the end of the string.
   */
  function Parse(s: string, pos: nat, i: nat, done: seq<Byte>): (r: Option<seq<Byte>>)
    ensures r.Some? ==> |r.value| == i + 1 + |done|
    decreases i
  {
    if pos > |s| then None
    else
      var (value, end) := Strtoul(s, pos);
      if i == 0 then Some([value % 256] + done) else Parse(s, end + 1, i - 1, [value % 256] + done)
  }

  /** Where number `k` of the text is looked for: one character behind the end of the one before. */
  function StartOf(s: string, k: nat): nat {
    if k == 0 then 0
    else
      var before := StartOf(s, k - 1);
      if before > |s| then before else Strtoul(s, before).1 + 1
  }

  lemma {:induction false} ParseKeepsDone(s: string, pos: nat, i: nat, done: seq<Byte>, b: seq<Byte>)
    requires Parse(s, pos, i, done) == Some(b)
    ensures |b| == i + 1 + |done| && b[i + 1..] == done
    decreases i
  {
    if i > 0 {
      var (value, end) := Strtoul(s, pos);
      var done' := [value % 256] + done;
      ParseKeepsDone(s, end + 1, i - 1, done', b);
      assert b[i + 1..] == b[i..][1..] && done'[1..] == done;
    }
  }

  lemma ParseSetsByte(s: string, pos: nat, i: nat, done: seq<Byte>, b: seq<Byte>)
    requires Parse(s, pos, i, done) == Some(b)
    ensures pos <= |s| && |b| == i + 1 + |done| && b[i] == Strtoul(s, pos).0 % 256
  {
    var (value, end) := Strtoul(s, pos);
    var done' := [value % 256] + done;
    if i > 0 {
      ParseKeepsDone(s, end + 1, i - 1, done', b);
      assert b[i] == b[i..][0] == done'[0];
    }
  }

  lemma ParseGoesOn(s: string, m: nat, n: nat, i: nat, j: nat, pos: nat, done: seq<Byte>, b: seq<Byte>)
      returns (next: nat, done': seq<Byte>)
    requires pos == StartOf(s, m) && n == m + 1 && j + 1 == i && Parse(s, pos, i, done) == Some(b)
    ensures next == StartOf(s, n) && |done'| == |done| + 1 && Parse(s, next, j, done') == Some(b)
  {
    next, done' := Strtoul(s, pos).1 + 1, [Strtoul(s, pos).0 % 256] + done;
  }

  /** Byte `k` is the number of the text that is looked for at `at`, cut to eight bits. */
  predicate IsNumber(s: string, at: nat, b: seq<Byte>, k: nat) {
    at <= |s| && k < |b| && b[k] == Strtoul(s, at).0 % 256
  }

  /**
   * The bytes are the numbers of the text, from the last byte down, each cut to eight bits: as number `m` is byte `i`,
   * number `t` is byte `k`.
   */
  lemma {:induction false} BytesAreNumbers(s: string, m: nat, i: nat, pos: nat, done: seq<Byte>, b: seq<Byte>, t: nat,
                                           k: nat, at: nat)
    requires k <= i && m + i == t + k && pos == StartOf(s, m) && Parse(s, pos, i, done) == Some(b)
    requires at == StartOf(s, t)
    ensures |b| == i + 1 + |done| && IsNumber(s, at, b, k)
    decreases i
  {
    if k == i {
      ParseSetsByte(s, pos, i, done, b);
    } else {
      var n, j := m + 1, i - 1;
      var next, done' := ParseGoesOn(s, m, n, i, j, pos, done, b);
      BytesAreNumbers(s, n, j, next, done', b, t, k, at);
    }
  }

  // "%2.2X:%2.2X:..." from the last byte to the first

  function HexDigit(n: nat): (c: char)
    requires n < 16
    ensures HexValue(c) == n && IsUpperHex(c)
  {
    if n < 10 then n as char + '0' else (n - 10) as char + 'A'
  }

  predicate IsUpperHex(c: char) {
    '0' <= c <= '9' || 'A' <= c <= 'F'
  }

  function Print(b: seq<Byte>, i: nat): (s: string)
    requires i < |b|
    ensures |s| == 3 * i + 2
  {
    [HexDigit(b[i] / 16), HexDigit(b[i] % 16)] + (if i == 0 then [] else ":" + Print(b, i - 1))
  }

  /** Where byte `i` stands in the text of `n` bytes. */
  function Place(n: nat, i: nat): nat
    requires i < n
  {
    3 * (n - 1 - i)
  }

  /** At the place of byte `i` there are two upper-case digits, and a colon if more bytes follow. */
  predicate CanonicalAt(s: string, n: nat, i: nat)
    requires |s| == 3 * n - 1 && i < n
  {
    IsUpperHex(s[Place(n, i)]) && IsUpperHex(s[Place(n, i) + 1]) && (i > 0 ==> s[Place(n, i) + 2] == ':')
  }

  predicate Canonical(s: string, n: nat) {
    |s| == 3 * n - 1 && forall i :: 0 <= i < n ==> CanonicalAt(s, n, i)
  }

  /** `s`, the text of the first `n` bytes, has the digits and the colon of byte `i` in their place. */
  predicate ShowsByte(s: string, b: seq<Byte>, n: nat, i: nat)
    requires |s| == 3 * n - 1 && i < n <= |b|
  {
    var k := Place(n, i);
    s[k] == HexDigit(b[i] / 16) && s[k + 1] == HexDigit(b[i] % 16) && (i > 0 ==> s[k + 2] == ':')
  }

  /** `s` is the text of `b`, character by character. */
  predicate Shows(s: string, b: seq<Byte>) {
    |s| == 3 * |b| - 1 && forall i :: 0 <= i < |b| ==> ShowsByte(s, b, |b|, i)
  }

  /** Where the digits and the colons of a printed address stand. */
  lemma {:induction false} PrintChars(b: seq<Byte>, n: nat, i: nat, s: string)
    requires i < n <= |b| && s == Print(b, n - 1)
    ensures |s| == 3 * n - 1 && ShowsByte(s, b, n, i)
    decreases n
  {
    if i < n - 1 {
      PrintChars(b, n - 1, i, s[3..]);
    }
  }

  lemma PrintShows(b: seq<Byte>, n: nat, s: string)
    requires 0 < n == |b| && s == Print(b, n - 1)
    ensures Shows(s, b)
  {
    forall i: nat | i < n ensures ShowsByte(s, b, n, i) {
      PrintChars(b, n, i, s);
    }
  }

  /** An address has one text only. */
  lemma ShowsIsUnique(s: string, s': string, b: seq<Byte>)
    requires Shows(s, b) && Shows(s', b)
    ensures s == s'
  {
    forall k: nat | k < |s| ensures s[k] == s'[k] {
      var i := |b| - 1 - k / 3;
      assert ShowsByte(s, b, |b|, i) && ShowsByte(s', b, |b|, i);
    }
  }

  /** What the digits from `lo` to `hi` are worth. */
  function Numeral(s: string, lo: nat, hi: nat): int
    requires lo <= hi <= |s|
    decreases hi
  {
    if lo == hi then 0 else 16 * Numeral(s, lo, hi - 1) + HexValue(s[hi - 1])
  }

  /** From `pos` on: spaces up to `sign`, then a sign or none, then `0x` if a digit follows that; up to `start`. */
  predicate LeadIn(s: string, pos: nat, sign: nat, start: nat) {
    && pos <= sign <= |s| && (forall k :: pos <= k < sign ==> IsSpace(s[k])) && (sign < |s| ==> !IsSpace(s[sign]))
    && var behind := if sign < |s| && s[sign] in {'+', '-'} then sign + 1 else sign;
       var marked := HexAt(s, behind + 2) && s[behind] == '0' && s[behind + 1] in {'x', 'X'};
       start == if marked then behind + 2 else behind
  }

  lemma {:induction false} SpacesEnd(s: string, pos: nat, sign: nat)
    requires pos <= sign <= |s| && (forall k :: pos <= k < sign ==> IsSpace(s[k])) && (sign < |s| ==> !IsSpace(s[sign]))
    ensures SkipSpaces(s, pos) == sign
    decreases sign - pos
  {
    if pos < sign {
      SpacesEnd(s, pos + 1, sign);
    }
  }

  lemma {:induction false} DigitsEnd(s: string, start: nat, pos: nat, end: nat, before: nat)
    requires start <= pos <= end <= |s| && before == Numeral(s, start, pos)
    requires (forall k: nat :: pos <= k < end ==> HexAt(s, k)) && !HexAt(s, end)
    ensures Digits(s, pos, before) == (Numeral(s, start, end), end)
    decreases end - pos
  {
    if pos < end {
      assert HexAt(s, pos);
      DigitsEnd(s, start, pos + 1, end, before * 16 + HexValue(s[pos]));
    }
  }

  /**
   * `strtoul` in base 16: behind the lead-in it takes all the digits there are, up to `end`, for what they are worth,
   * negated modulo the word size behind a minus sign, and held at the largest value. Without a digit there is no
   * number.
   */
  lemma StrtoulTakes(s: string, pos: nat, sign: nat, start: nat, end: nat)
    requires LeadIn(s, pos, sign, start) && start <= end <= |s|
    requires (forall k: nat :: start <= k < end ==> HexAt(s, k)) && !HexAt(s, end)
    ensures var value := Numeral(s, start, end);
            Strtoul(s, pos) ==
            if start == end then (0, pos)
            else if value > ULONG_MAX then (ULONG_MAX, end)
            else if s[sign] == '-' && value > 0 then (ULONG_MAX + 1 - value, end)
            else (value, end)
  {
    SpacesEnd(s, pos, sign);
    DigitsEnd(s, start, start, end, 0);
  }

  /** Two digits, then no third one: `strtoul` takes exactly these. */
  lemma TwoDigits(s: string, pos: nat)
    requires pos + 2 <= |s| && IsUpperHex(s[pos]) && IsUpperHex(s[pos + 1]) && !HexAt(s, pos + 2)
    ensures Strtoul(s, pos) == (16 * HexValue(s[pos]) + HexValue(s[pos + 1]), pos + 2)
  {
    assert Digits(s, pos + 2, 16 * HexValue(s[pos]) + HexValue(s[pos + 1])).1 == pos + 2;
    assert Digits(s, pos + 1, HexValue(s[pos])) == Digits(s, pos + 2, HexValue(s[pos]) * 16 + HexValue(s[pos + 1]));
  }

  lemma ReadsByte(s: string, b: seq<Byte>, n: nat, i: nat)
    requires i < n == |b| && |s| == 3 * n - 1 && ShowsByte(s, b, n, i)
    ensures Strtoul(s, Place(n, i)) == (b[i], Place(n, i) + 2)
  {
    TwoDigits(s, Place(n, i));
  }

  /** From the place of byte `i` on, the text of an address parses back to its bytes. */
  lemma {:induction false} ParseShown(s: string, b: seq<Byte>, n: nat, i: nat, pos: nat, done: seq<Byte>)
    requires i < n == |b| && Shows(s, b) && pos == Place(n, i) && done == b[i + 1..]
    ensures Parse(s, pos, i, done) == Some(b)
    decreases i
  {
    ReadsByte(s, b, n, i);
    assert [b[i]] + done == b[i..];
    if i > 0 {
      ParseShown(s, b, n, i - 1, pos + 3, [b[i]] + done);
    }
  }

  lemma ParseText(s: string, b: seq<Byte>, n: nat)
    requires 0 < n == |b| && Shows(s, b)
    ensures Parse(s, 0, n - 1, []) == Some(b)
  {
    ParseShown(s, b, n, n - 1, 0, []);
  }

  /** Every address survives being printed and parsed. */
  lemma ParseInvertsPrint(b: seq<Byte>)
    requires b != []
    ensures Parse(Print(b, |b| - 1), 0, |b| - 1, []) == Some(b)
  {
    PrintShows(b, |b|, Print(b, |b| - 1));
    ParseText(Print(b, |b| - 1), b, |b|);
  }

  /** A canonical text is the text of some address. */
  lemma CanonicalIsShown(s: string, n: nat) returns (b: seq<Byte>)
    requires n > 0 && Canonical(s, n)
    ensures |b| == n && Shows(s, b)
  {
    forall i: nat | i < n
      ensures 0 <= 16 * HexValue(s[Place(n, i)]) + HexValue(s[Place(n, i) + 1]) < 256
    {
      assert CanonicalAt(s, n, i);
    }
    b := seq(n, i requires 0 <= i < n => 16 * HexValue(s[Place(n, i)]) + HexValue(s[Place(n, i) + 1]));
    forall i: nat | i < n ensures ShowsByte(s, b, |b|, i) {
      assert CanonicalAt(s, n, i);
    }
  }

  lemma ShownIsCanonical(s: string, b: seq<Byte>)
    requires Shows(s, b)
    ensures Canonical(s, |b|)
  {
    forall i: nat | i < |b| ensures CanonicalAt(s, |b|, i) {
      assert ShowsByte(s, b, |b|, i);
    }
  }

  /** Parsing and printing restores a text exactly when it is canonical; in particular the parse stays inside it. */
  lemma PrintInvertsParse(s: string, n: nat)
    requires n > 0
    ensures var p := Parse(s, 0, n - 1, []);
            (p.Some? && Print(p.value, n - 1) == s) <==> Canonical(s, n)
  {
    if Canonical(s, n) {
      var b := CanonicalIsShown(s, n);
      PrintShows(b, n, Print(b, n - 1));
      ShowsIsUnique(s, Print(b, n - 1), b);
      ParseText(s, b, n);
    }
    var p := Parse(s, 0, n - 1, []);
    if p.Some? && Print(p.value, n - 1) == s {
      PrintShows(p.value, n, s);
      ShownIsCanonical(s, p.value);
    }
  }

  /** `sprintf` into the caller's buffer, terminator included; returns the number of characters. */
  method Ba2Str(ba: array<Byte>, str: array<char>) returns (n: int)
    requires ba.Length == 6 && str.Length >= 18
    modifies str
    ensures n == 17 && str[..17] == Print(old(ba[..]), 5) && str[17] == 0 as char
    ensures forall k :: 18 <= k < str.Length ==> str[k] == old(str[k])
  {
    var text := Print(ba[..], 5);
    forall k | 0 <= k < 17 {
      str[k] := text[k];
    }
    str[17] := 0 as char;
    assert str[..17] == text;
    return 17;
  }

  /** The caller owes a text with enough separators for the scan to stay inside it. */
  method Str2Ba(str: string, ba: array<Byte>) returns (status: int)
    requires ba.Length == 6 && Parse(str, 0, ba.Length - 1, []).Some?
    modifies ba
    ensures status == 0 && Some(ba[..]) == Parse(str, 0, ba.Length - 1, [])
  {
    var pos, i := 0, ba.Length - 1;
    assert ba[i + 1..] == [];
    while i >= 0
      invariant -1 <= i < ba.Length
      invariant if i >= 0 then Parse(str, 0, ba.Length - 1, []) == Parse(str, pos, i, ba[i + 1..])
                else Parse(str, 0, ba.Length - 1, []) == Some(ba[..])
    {
      var (value, end) := Strtoul(str, pos);
      ghost var done := ba[i + 1..];
      ba[i] := value % 256;
      assert ba[i..] == [value % 256] + done;
      pos := end + 1;
      i := i - 1;
    }
    return 0;
  }
}
