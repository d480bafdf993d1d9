/**
 TOTP verification: RFC 6238 over the HOTP of RFC 4226.

 HMAC-SHA1 and base32 decoding are parameters: any function to 20-byte digests and any
 partial decoder.  The clock is read afresh for every counter tried, as the source does, so
 it is a function from the number of the reading to seconds.
 */
module Totp {
  import opened Basics

  type byte = b: int | 0 <= b < 256

  type Digest = d: seq<byte> | |d| == 20 witness seq(20, _ => 0)

  type Hmac = (seq<byte>, seq<byte>) -> Digest

  type Clock = nat -> nat

  const MAX_COUNTER := 0x1_0000_0000_0000_0000

  // ----- Strings -----

  /** The code points `str.strip` removes. */
  predicate IsSpace(c: char) {
    var n := c as int;
    || 9 <= n <= 13 || 28 <= n <= 32 || n == 0x85 || n == 0xA0 || n == 0x1680 || 0x2000 <= n <= 0x200A
    || n == 0x2028 || n == 0x2029 || n == 0x202F || n == 0x205F || n == 0x3000
  }

  function Strip(s: string): string {
    if s == "" then ""
    else if IsSpace(s[0]) then Strip(s[1..])
    else if IsSpace(s[|s| - 1]) then Strip(s[..|s| - 1])
    else s
  }

  function WithoutBlanks(s: string): string {
    if s == "" then "" else (if s[0] == ' ' then "" else [s[0]]) + WithoutBlanks(s[1..])
  }

  function Upper(s: string): string {
    seq(|s|, i requires 0 <= i < |s| => if 'a' <= s[i] <= 'z' then s[i] - 32 as char else s[i])
  }

  function Equals(n: nat): string {
    if n == 0 then "" else "=" + Equals(n - 1)
  }

  function Filled(s: string): string {
    if |s| % 8 != 0 then s + Equals(8 - |s| % 8) else s
  }

  /** The secret as it is handed to the base32 decoder. */
  function Normalised(secret: string): string {
    Filled(Upper(WithoutBlanks(Strip(secret))))
  }

  // ----- HOTP -----

  function Pow256(k: nat): (p: nat)
    ensures p >= 1
  {
    if k == 0 then 1 else 256 * Pow256(k - 1)
  }

  /** `struct.pack(">Q", counter)`. */
  function Packed(counter: nat): (s: seq<byte>)
    requires counter < MAX_COUNTER
    ensures |s| == 8
  {
    seq(8, i requires 0 <= i < 8 => counter / Pow256(7 - i) % 256)
  }

  /** The number that bytes stand for, most significant first. */
  function BigEndian(s: seq<byte>): nat {
    if s == [] then 0
    else
      var last: int := s[|s| - 1];
      BigEndian(s[..|s| - 1]) * 256 + last
  }

  lemma MultiplyBound(a: nat, b: nat, p: nat)
    requires a <= b
    ensures a * p <= b * p
  {
  }

  lemma QuotientIs(n: nat, d: nat, q: nat, r: nat)
    requires d > 0 && n == q * d + r && r < d
    ensures n / d == q
  {
    if n / d < q {
      MultiplyBound(n / d + 1, q, d);
      assert false;
    }
    if q < n / d {
      MultiplyBound(q + 1, n / d, d);
      assert false;
    }
  }

  /** Dividing by `p` and then by 256 is dividing by both at once. */
  lemma DivideTwice(n: nat, p: nat)
    requires p > 0
    ensures n / (256 * p) == n / p / 256
  {
    var q, r := n / p, n % p;
    var a, b := q / 256, q % 256;
    assert n == q * p + r && q == 256 * a + b;
    assert b * p <= 255 * p by {
      MultiplyBound(b, 255, p);
    }
    assert n == a * (256 * p) + (b * p + r);
    QuotientIs(n, 256 * p, a, b * p + r);
  }

  lemma OneMoreByte(s: seq<byte>, k: nat)
    requires 0 < k <= |s|
    ensures var last: int := s[k - 1]; BigEndian(s[..k]) == BigEndian(s[..k - 1]) * 256 + last
  {
    assert s[..k][..k - 1] == s[..k - 1];
  }

  lemma NextDigit(n: nat, p: nat)
    requires p > 0
    ensures n / (256 * p) * 256 + n / p % 256 == n / p
  {
    DivideTwice(n, p);
  }

  lemma NothingAbove(counter: nat)
    requires counter < MAX_COUNTER
    ensures counter / Pow256(8) == 0
  {
    assert Pow256(8) == 0x1_0000_0000_0000_0000;
  }

  lemma PackedByte(counter: nat, k: nat)
    requires counter < MAX_COUNTER && 0 < k <= 8
    ensures var b: int := Packed(counter)[k - 1]; b == counter / Pow256(8 - k) % 256
    ensures Pow256(8 - (k - 1)) == 256 * Pow256(8 - k)
  {
    assert 7 - (k - 1) == 8 - k;
  }

  lemma {:induction false} PackedPrefix(counter: nat, k: nat)
    requires counter < MAX_COUNTER && k <= 8
    ensures BigEndian(Packed(counter)[..k]) == counter / Pow256(8 - k)
  {
    if k == 0 {
      NothingAbove(counter);
    } else {
      PackedPrefix(counter, k - 1);
      PackedByte(counter, k);
      OneMoreByte(Packed(counter), k);
      NextDigit(counter, Pow256(8 - k));
    }
  }

  lemma {:induction false} SameNumberSameBytes(a: seq<byte>, b: seq<byte>)
    requires |a| == |b| && BigEndian(a) == BigEndian(b)
    ensures a == b
  {
    if a != [] {
      var n := |a| - 1;
      SameNumberSameBytes(a[..n], b[..n]);
      assert a == a[..n] + [a[n]] && b == b[..n] + [b[n]];
    }
  }

  /** The message is the counter, most significant byte first, and there is only one such message. */
  lemma PackedIsBigEndian(counter: nat, message: seq<byte>)
    requires counter < MAX_COUNTER && |message| == 8
    ensures message == Packed(counter) <==> BigEndian(message) == counter
  {
    PackedPrefix(counter, 8);
    assert Packed(counter)[..8] == Packed(counter);
    if BigEndian(message) == counter {
      SameNumberSameBytes(message, Packed(counter));
    }
  }

  function BigEndian4(s: seq<byte>): nat
    requires |s| == 4
  {
    var a: int, b: int, c: int, d: int := s[0], s[1], s[2], s[3];
    ((a * 256 + b) * 256 + c) * 256 + d
  }

  /** The dynamic truncation: the low bits of the last byte say where; the slice stays in the digest. */
  function Truncated(d: Digest): nat {
    var o := d[19] % 16;
    BigEndian4(d[o..o + 4]) % 0x8000_0000
  }

  /** It is the 31-bit number section 5.3 of RFC 4226 takes, with the top bit of the first byte masked. */
  lemma TruncationIsRfc4226(d: Digest)
    ensures var o := d[19] % 16;
            o + 4 <= |d| &&
            var a: int, b: int, c: int, e: int := d[o], d[o + 1], d[o + 2], d[o + 3];
            Truncated(d) == (a % 128) * 0x100_0000 + b * 0x1_0000 + c * 0x100 + e
  {
  }

  function Digit(n: nat): char {
    '0' + (n % 10) as char
  }

  /** `f"{value:06d}"`. */
  function SixDigits(value: nat): (s: string)
    requires value < 1_000_000
    ensures |s| == 6 && forall i :: 0 <= i < 6 ==> '0' <= s[i] <= '9'
  {
    var tens := value / 10;
    var hundreds := tens / 10;
    var thousands := hundreds / 10;
    var tenThousands := thousands / 10;
    [Digit(tenThousands / 10), Digit(tenThousands), Digit(thousands), Digit(hundreds), Digit(tens), Digit(value)]
  }

  function Weight(c: char): nat
    requires '0' <= c <= '9'
  {
    c as int - 48
  }

  lemma DigitWeight(n: nat)
    ensures '0' <= Digit(n) <= '9' && n == 10 * (n / 10) + Weight(Digit(n))
  {
  }

  /** Different values print differently, so comparing codes is comparing values. */
  lemma SixDigitsReadBack(value: nat)
    requires value < 1_000_000
    ensures var s := SixDigits(value);
            value == ((((Weight(s[0]) * 10 + Weight(s[1])) * 10 + Weight(s[2])) * 10 + Weight(s[3]))
                    * 10 + Weight(s[4])) * 10 + Weight(s[5])
  {
    var tens := value / 10;
    var hundreds := tens / 10;
    var thousands := hundreds / 10;
    var tenThousands := thousands / 10;
    DigitWeight(value);
    DigitWeight(tens);
    DigitWeight(hundreds);
    DigitWeight(thousands);
    DigitWeight(tenThousands);
    DigitWeight(tenThousands / 10);
  }

  /** The code an authenticator shows for a counter. */
  function Hotp(hmac: Hmac, key: seq<byte>, counter: nat): string
    requires counter < MAX_COUNTER
  {
    SixDigits(Truncated(hmac(key, Packed(counter))) % 1_000_000)
  }

  /**
   The six digits of a digest by section 5.3 of RFC 4226: the last byte says where to read 31
   bits, and their number modulo a million is printed in decimal, with leading zeros.
   */
  predicate ShowsCode(d: Digest, s: string) {
    var o := d[19] % 16;
    var a: int, b: int, c: int, e: int := d[o], d[o + 1], d[o + 2], d[o + 3];
    var number := (a % 128) * 0x100_0000 + b * 0x1_0000 + c * 0x100 + e;
    && |s| == 6 && (forall i :: 0 <= i < 6 ==> '0' <= s[i] <= '9')
    && number % 1_000_000 == (s[0] as int - 48) * 100_000 + (s[1] as int - 48) * 10_000 + (s[2] as int - 48) * 1_000
                             + (s[3] as int - 48) * 100 + (s[4] as int - 48) * 10 + (s[5] as int - 48)
  }

  lemma LastDigit(n: int, m: int, a: int, b: int)
    requires n * 10 + a == m * 10 + b && 0 <= a < 10 && 0 <= b < 10
    ensures n == m && a == b
  {
  }

  lemma SixDigitsUnique(a: string, b: string)
    requires |a| == 6 && |b| == 6 && forall i :: 0 <= i < 6 ==> '0' <= a[i] <= '9' && '0' <= b[i] <= '9'
    requires (a[0] as int - 48) * 100_000 + (a[1] as int - 48) * 10_000 + (a[2] as int - 48) * 1_000
             + (a[3] as int - 48) * 100 + (a[4] as int - 48) * 10 + (a[5] as int - 48)
             == (b[0] as int - 48) * 100_000 + (b[1] as int - 48) * 10_000 + (b[2] as int - 48) * 1_000
                + (b[3] as int - 48) * 100 + (b[4] as int - 48) * 10 + (b[5] as int - 48)
    ensures a == b
  {
    var x := seq(6, i requires 0 <= i < 6 => a[i] as int - 48);
    var y := seq(6, i requires 0 <= i < 6 => b[i] as int - 48);
    var x2, y2 := x[0] * 10 + x[1], y[0] * 10 + y[1];
    var x3, y3 := x2 * 10 + x[2], y2 * 10 + y[2];
    var x4, y4 := x3 * 10 + x[3], y3 * 10 + y[3];
    LastDigit(x4 * 10 + x[4], y4 * 10 + y[4], x[5], y[5]);
    LastDigit(x4, y4, x[4], y[4]);
    LastDigit(x3, y3, x[3], y[3]);
    LastDigit(x2, y2, x[2], y[2]);
    LastDigit(x[0], y[0], x[1], y[1]);
    assert forall i :: 0 <= i < 6 ==> x[i] == y[i];
    forall i | 0 <= i < 6 ensures a[i] == b[i] {
      assert a[i] as int == x[i] + 48 && b[i] as int == y[i] + 48;
    }
  }

  lemma ShowsItsCode(d: Digest)
    ensures ShowsCode(d, SixDigits(Truncated(d) % 1_000_000))
  {
    TruncationIsRfc4226(d);
    SixDigitsReadBack(Truncated(d) % 1_000_000);
  }

  /** The code for a counter is the one that RFC 4226 computes from the eight-byte message of that counter. */
  lemma HotpIsRfc4226(hmac: Hmac, key: seq<byte>, counter: nat, message: seq<byte>, s: string)
    requires counter < MAX_COUNTER && |message| == 8 && BigEndian(message) == counter
    ensures Hotp(hmac, key, counter) == s <==> ShowsCode(hmac(key, message), s)
  {
    PackedIsBigEndian(counter, message);
    ShowsItsCode(hmac(key, message));
    if ShowsCode(hmac(key, message), s) {
      SixDigitsUnique(Hotp(hmac, key, counter), s);
    }
  }

  // ----- Verification -----

  function TimeStep(seconds: nat): nat {
    seconds / 30
  }

  /** The counter tried at reading `i`: offset `i - window` from the time step read then. */
  function Tried(clock: Clock, window: nat, i: nat): int {
    TimeStep(clock(i)) + i - window
  }

  predicate InRange(counter: int) {
    0 <= counter < MAX_COUNTER
  }

  predicate IsCodeOf(hmac: Hmac, key: seq<byte>, code: string, counter: int) {
    InRange(counter) && Hotp(hmac, key, counter) == Strip(code)
  }

  predicate MatchesAt(hmac: Hmac, key: seq<byte>, code: string, window: nat, clock: Clock, i: nat) {
    IsCodeOf(hmac, key, code, Tried(clock, window, i))
  }

  /** Some counter tried matches, and packing raised on none before it. */
  predicate Accepts(hmac: Hmac, key: seq<byte>, code: string, window: nat, clock: Clock) {
    exists i :: 0 <= i <= 2 * window && MatchesAt(hmac, key, code, window, clock, i)
                && forall j :: 0 <= j < i ==> InRange(Tried(clock, window, j))
  }

  /** The loop over the offsets, with its early return. */
  method TryCounters(hmac: Hmac, key: seq<byte>, code: string, window: nat, clock: Clock) returns (ok: bool)
    ensures ok <==> Accepts(hmac, key, code, window, clock)
  {
    var i := 0;
    while i < 2 * window + 1
      invariant 0 <= i <= 2 * window + 1
      invariant forall j :: 0 <= j < i ==>
                  InRange(Tried(clock, window, j)) && !MatchesAt(hmac, key, code, window, clock, j)
    {
      var counter := Tried(clock, window, i);
      if !InRange(counter) {
        // struct.pack raises, and the handler around the loop gives up
        return false;
      }
      if IsCodeOf(hmac, key, code, counter) {
        assert MatchesAt(hmac, key, code, window, clock, i);
        return true;
      }
      i := i + 1;
    }
    return false;
  }

  method VerifyTotp(hmac: Hmac, b32decode: string -> Option<seq<byte>>, secret: string, code: string,
                    window: nat, clock: Clock)
    returns (ok: bool)
    ensures ok <==> b32decode(Normalised(secret)).Some?
                    && Accepts(hmac, b32decode(Normalised(secret)).value, code, window, clock)
  {
    var key := b32decode(Normalised(secret));
    if key == None {
      return false;
    }
    ok := TryCounters(hmac, key.value, code, window, clock);
  }

  /** The clock stays within one time step for the duration of the call. */
  predicate SameStep(clock: Clock, window: nat, step: nat) {
    forall i :: 0 <= i <= 2 * window ==> TimeStep(clock(i)) == step
  }

  lemma CodeInWindowAccepted(hmac: Hmac, key: seq<byte>, code: string, window: nat,
                             clock: Clock, step: nat, counter: int)
    requires SameStep(clock, window, step) && window <= step && step + window < MAX_COUNTER
    requires step - window <= counter <= step + window && IsCodeOf(hmac, key, code, counter)
    ensures Accepts(hmac, key, code, window, clock)
  {
    var i := counter + window - step;
    assert Tried(clock, window, i) == counter;
    assert MatchesAt(hmac, key, code, window, clock, i);
  }

  /**
   With the clock in time step `step`, a code is accepted if and only if, stripped, it is the
   code of some counter within the window around it.
   */
  lemma AcceptedIffInWindow(hmac: Hmac, key: seq<byte>, code: string, window: nat, clock: Clock, step: nat)
    requires SameStep(clock, window, step) && window <= step && step + window < MAX_COUNTER
    ensures Accepts(hmac, key, code, window, clock)
            <==> exists counter :: step - window <= counter <= step + window && IsCodeOf(hmac, key, code, counter)
  {
    if Accepts(hmac, key, code, window, clock) {
      var i :| 0 <= i <= 2 * window && MatchesAt(hmac, key, code, window, clock, i);
      var counter := Tried(clock, window, i);
      assert step - window <= counter <= step + window && IsCodeOf(hmac, key, code, counter);
    }
    if counter :| step - window <= counter <= step + window && IsCodeOf(hmac, key, code, counter) {
      CodeInWindowAccepted(hmac, key, code, window, clock, step, counter);
    }
  }

  /**
   What is accepted, by the two standards: with every reading of the clock in time step `step`
   of 30 seconds, a code is accepted if and only if, stripped, it is what RFC 4226 shows for
   the HMAC of the eight-byte message of some counter within the window around `step`.
   */
  lemma AcceptedIffRfc6238(hmac: Hmac, key: seq<byte>, code: string, window: nat, clock: Clock, step: nat)
    requires forall i :: 0 <= i <= 2 * window ==> 30 * step <= clock(i) < 30 * step + 30
    requires window <= step && step + window < 0x1_0000_0000_0000_0000
    ensures Accepts(hmac, key, code, window, clock)
            <==> exists message: seq<byte> ::
                   |message| == 8 && step - window <= BigEndian(message) <= step + window
                   && ShowsCode(hmac(key, message), Strip(code))
  {
    AcceptedIffInWindow(hmac, key, code, window, clock, step);
    if counter :| step - window <= counter <= step + window && IsCodeOf(hmac, key, code, counter) {
      var message := Packed(counter);
      PackedIsBigEndian(counter, message);
      HotpIsRfc4226(hmac, key, counter, message, Strip(code));
      assert |message| == 8 && step - window <= BigEndian(message) <= step + window
             && ShowsCode(hmac(key, message), Strip(code));
    }
    if message: seq<byte> :| |message| == 8 && step - window <= BigEndian(message) <= step + window
                             && ShowsCode(hmac(key, message), Strip(code)) {
      HotpIsRfc4226(hmac, key, BigEndian(message), message, Strip(code));
      assert IsCodeOf(hmac, key, code, BigEndian(message));
    }
  }

  /** In the first steps of the epoch nothing is accepted: the first counter is negative and raises. */
  lemma EarlyClockRejects(hmac: Hmac, key: seq<byte>, code: string, window: nat, clock: Clock)
    requires TimeStep(clock(0)) < window
    ensures !Accepts(hmac, key, code, window, clock)
  {
    assert !InRange(Tried(clock, window, 0));
  }

  lemma StripKeepsDigits(s: string)
    requires |s| == 6 && forall i :: 0 <= i < 6 ==> '0' <= s[i] <= '9'
    ensures Strip(s) == s
  {
  }

  /** A code made at `made` is accepted at any time at most `30 * window` seconds away. */
  lemma DriftIsTolerated(hmac: Hmac, key: seq<byte>, window: nat, clock: Clock, made: nat, now: nat)
    requires SameStep(clock, window, TimeStep(now)) && window <= TimeStep(now) && TimeStep(now) + window < MAX_COUNTER
    requires made <= now + 30 * window && now <= made + 30 * window
    ensures made / 30 < MAX_COUNTER && Accepts(hmac, key, Hotp(hmac, key, made / 30), window, clock)
  {
    var code := Hotp(hmac, key, TimeStep(made));
    StripKeepsDigits(code);
    assert IsCodeOf(hmac, key, code, TimeStep(made));
    CodeInWindowAccepted(hmac, key, code, window, clock, TimeStep(now), TimeStep(made));
  }

  /** Counter `c` is among those tried. */
  predicate IsTried(clock: Clock, window: nat, c: int) {
    exists i :: 0 <= i <= 2 * window && Tried(clock, window, i) == c
  }

  /**
   Reading the clock inside the loop matters exactly when it crosses into a new time step: with
   a clock that never goes back, every counter of the window around the first reading is tried
   if and only if all readings fall into the same step.
   */
  lemma WindowCoveredIff(clock: Clock, window: nat)
    requires forall i, j :: 0 <= i < j <= 2 * window ==> clock(i) <= clock(j)
    ensures var step := TimeStep(clock(0));
            (forall c :: step - window <= c <= step + window ==> IsTried(clock, window, c))
            <==> SameStep(clock, window, step)
  {
    var step := TimeStep(clock(0));
    if SameStep(clock, window, step) {
      forall c | step - window <= c <= step + window ensures IsTried(clock, window, c) {
        assert Tried(clock, window, c - step + window) == c;
      }
    } else {
      var i := 0;
      while TimeStep(clock(i)) == step
        invariant 0 <= i <= 2 * window
        invariant forall j :: 0 <= j < i ==> TimeStep(clock(j)) == step
        decreases 2 * window - i
      {
        i := i + 1;
        if i > 2 * window { assert false; }
      }
      var skipped := step - window + i;
      forall j | 0 <= j <= 2 * window ensures Tried(clock, window, j) != skipped {
        if j > i {
          assert clock(i) <= clock(j);
        }
      }
      assert !IsTried(clock, window, skipped);
    }
  }

  // ----- Stripping and normalising -----

  predicate AllSpace(s: string) {
    forall i :: 0 <= i < |s| ==> IsSpace(s[i])
  }

  lemma {:induction false} StripsAway(s: string)
    requires AllSpace(s)
    ensures Strip(s) == ""
  {
    if s != "" {
      StripsAway(s[1..]);
    }
  }

  lemma NothingToStrip(s: string)
    requires s != "" ==> !IsSpace(s[0]) && !IsSpace(s[|s| - 1])
    ensures Strip(s) == s
  {
  }

  /** Stripping removes white space from both ends, all of it, and nothing else. */
  lemma {:induction false} StripsEnds(before: string, s: string, after: string)
    requires AllSpace(before) && AllSpace(after) && (s != "" ==> !IsSpace(s[0]) && !IsSpace(s[|s| - 1]))
    ensures Strip(before + s + after) == s
    ensures IsSpace(' ') && IsSpace('\t') && IsSpace('\r') && IsSpace('\n')
    decreases |before| + |after|
  {
    var whole := before + s + after;
    if before != "" {
      assert whole[1..] == before[1..] + s + after;
      StripsEnds(before[1..], s, after);
    } else if after != "" {
      var rest := after[..|after| - 1];
      assert whole[..|whole| - 1] == before + s + rest;
      StripsEnds(before, s, rest);
      if s == "" {
        StripsAway(whole);
      }
    } else {
      assert whole == s;
      NothingToStrip(s);
    }
  }

  /** No white space but blanks. */
  predicate OnlyBlanks(s: string) {
    forall i :: 0 <= i < |s| && IsSpace(s[i]) ==> s[i] == ' '
  }

  lemma {:induction false} BlanksJoined(a: string, b: string)
    ensures WithoutBlanks(a + b) == WithoutBlanks(a) + WithoutBlanks(b)
  {
    if a == "" {
      assert a + b == b;
    } else {
      assert (a + b)[1..] == a[1..] + b;
      BlanksJoined(a[1..], b);
    }
  }

  lemma {:induction false} StripBeforeBlanks(s: string)
    requires OnlyBlanks(s)
    ensures WithoutBlanks(Strip(s)) == WithoutBlanks(s)
  {
    if s != "" {
      if IsSpace(s[0]) {
        StripBeforeBlanks(s[1..]);
      } else if IsSpace(s[|s| - 1]) {
        StripBeforeBlanks(s[..|s| - 1]);
        BlanksJoined(s[..|s| - 1], [s[|s| - 1]]);
        assert s == s[..|s| - 1] + [s[|s| - 1]];
        assert WithoutBlanks([' ']) == WithoutBlanks([' '][1..]);
      }
    }
  }

  lemma BlankVanishes(a: string, b: string)
    ensures WithoutBlanks(a + " " + b) == WithoutBlanks(a + b)
  {
    BlanksJoined(a, b);
    BlanksJoined(a + " ", b);
    BlanksJoined(a, " ");
    assert WithoutBlanks([' ']) == WithoutBlanks([' '][1..]);
  }

  /** Blanks in a secret do not matter, wherever they are. */
  lemma BlanksDoNotMatter(a: string, b: string)
    requires OnlyBlanks(a) && OnlyBlanks(b)
    ensures Normalised(a + " " + b) == Normalised(a + b)
  {
    StripBeforeBlanks(a + " " + b);
    StripBeforeBlanks(a + b);
    BlankVanishes(a, b);
  }

  function Lower(s: string): string {
    seq(|s|, i requires 0 <= i < |s| => if 'A' <= s[i] <= 'Z' then s[i] + 32 as char else s[i])
  }

  lemma {:induction false} LowerStripped(s: string)
    ensures Strip(Lower(s)) == Lower(Strip(s))
  {
    if s != "" {
      if IsSpace(s[0]) {
        LowerStripped(s[1..]);
        assert Lower(s)[1..] == Lower(s[1..]);
      } else if IsSpace(s[|s| - 1]) {
        LowerStripped(s[..|s| - 1]);
        assert Lower(s)[..|s| - 1] == Lower(s[..|s| - 1]);
      }
    }
  }

  lemma {:induction false} LowerWithoutBlanks(s: string)
    ensures WithoutBlanks(Lower(s)) == Lower(WithoutBlanks(s))
  {
    if s != "" {
      LowerWithoutBlanks(s[1..]);
      assert Lower(s)[1..] == Lower(s[1..]);
    }
  }

  lemma UpperOfLower(s: string)
    ensures Upper(Lower(s)) == Upper(s)
  {
  }

  /** Nor does the case of its letters. */
  lemma CaseDoesNotMatter(s: string)
    ensures Normalised(Lower(s)) == Normalised(s)
  {
    LowerStripped(s);
    LowerWithoutBlanks(Strip(s));
    UpperOfLower(WithoutBlanks(Strip(s)));
  }

  lemma {:induction false} AllEquals(n: nat)
    ensures |Equals(n)| == n && forall c :: c in Equals(n) ==> c == '='
  {
    if n > 0 {
      AllEquals(n - 1);
    }
  }

  lemma {:induction false} NoBlanksToRemove(s: string)
    requires ' ' !in s
    ensures WithoutBlanks(s) == s
  {
    if s != "" {
      NoBlanksToRemove(s[1..]);
    }
  }

  lemma NothingToRaise(s: string)
    requires forall i :: 0 <= i < |s| ==> !('a' <= s[i] <= 'z')
    ensures Upper(s) == s
  {
  }

  lemma FilledIs(s: string)
    ensures var n := Filled(s);
            && |n| % 8 == 0 && |s| <= |n| < |s| + 8 && n[..|s|] == s
            && forall i :: |s| <= i < |n| ==> n[i] == '='
  {
    if |s| % 8 != 0 {
      var pad := Equals(8 - |s| % 8);
      AllEquals(8 - |s| % 8);
      forall i | |s| <= i < |s| + |pad| ensures (s + pad)[i] == '=' {
        assert (s + pad)[i] == pad[i - |s|] && pad[i - |s|] in pad;
      }
    }
  }

  /** What is left is filled up with '=' to whole groups of eight, and not altered. */
  lemma FilledUp(s: string)
    requires forall i :: 0 <= i < |s| ==> 'A' <= s[i] <= 'Z' || '2' <= s[i] <= '7'
    ensures var n := Normalised(s);
            && |n| % 8 == 0 && |s| <= |n| < |s| + 8 && n[..|s|] == s
            && forall i :: |s| <= i < |n| ==> n[i] == '='
  {
    NothingToStrip(s);
    NoBlanksToRemove(s);
    NothingToRaise(s);
    FilledIs(s);
  }

  // ----- Generated secrets -----

  /** The 32 characters of the base32 alphabet: A to Z, then 2 to 7. */
  function AlphabetChar(k: nat): char
    requires k < 32
  {
    if k < 26 then 'A' + k as char else '2' + (k - 26) as char
  }

  /** `generate_base32_secret`, given what the random source picks. */
  function Generated(picks: seq<nat>): string
    requires |picks| == 16 && forall i :: 0 <= i < 16 ==> picks[i] < 32
  {
    seq(16, i requires 0 <= i < 16 => AlphabetChar(picks[i]))
  }

  /** Clean secrets of a whole number of base32 groups reach the decoder unchanged. */
  lemma CleanSecretIsNormal(s: string)
    requires |s| % 8 == 0 && forall i :: 0 <= i < |s| ==> 'A' <= s[i] <= 'Z' || '2' <= s[i] <= '7'
    ensures Normalised(s) == s
  {
    NothingToStrip(s);
    NoBlanksToRemove(s);
    NothingToRaise(s);
  }

  /** A generated secret has the 16 characters of the base32 alphabet that were picked. */
  lemma GeneratedIs(picks: seq<nat>, i: nat)
    requires |picks| == 16 && (forall j :: 0 <= j < 16 ==> picks[j] < 32) && i < 16
    ensures |Generated(picks)| == 16 && Generated(picks)[i] == "ABCDEFGHIJKLMNOPQRSTUVWXYZ234567"[picks[i]]
  {
  }

  /** So does every generated secret: 16 characters of the alphabet, no padding. */
  lemma GeneratedSecretIsNormal(picks: seq<nat>)
    requires |picks| == 16 && forall i :: 0 <= i < 16 ==> picks[i] < 32
    ensures Normalised(Generated(picks)) == Generated(picks)
  {
    CleanSecretIsNormal(Generated(picks));
  }
}
