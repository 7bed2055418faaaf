/** Sortable identifiers (src/accretion/ids.py): a kind's prefix, a timestamp and randomness in base 32. */
module Ids {
  import opened Strings

  const ALPHABET := "0123456789ABCDEFGHJKMNPQRSTVWXYZ"

  function Power(n: nat): (p: nat)
    ensures p > 0
  {
    if n == 0 then 1 else 32 * Power(n - 1)
  }

  lemma AlphabetAscends(i: nat, j: nat)
    requires i < j < 32
    ensures |ALPHABET| == 32 && ALPHABET[i] < ALPHABET[j]
  {
  }

  /** The digits and the capital letters but for I, L, O and U. */
  lemma AlphabetIsCrockfords(c: char)
    ensures c in ALPHABET <==> '0' <= c <= '9' || ('A' <= c <= 'Z' && c !in {'I', 'L', 'O', 'U'})
  {
  }

  // ---------------------------------------------------------------- encoding

  /** The last `n` base-32 digits of a value, most significant first. */
  function Encoded(value: nat, n: nat): (s: string)
    ensures |s| == n
  {
    if n == 0 then "" else Encoded(value / 32, n - 1) + [ALPHABET[value % 32]]
  }

  /** `_encode_base32`. */
  method EncodeBase32(value: nat, length: nat) returns (s: string)
    ensures s == Encoded(value, length)
  {
    var encoded := new char[length](_ => '0');
    var rest := value;
    var index := length;
    while index > 0
      invariant index <= length
      invariant Encoded(rest, index) + encoded[index..] == Encoded(value, length)
    {
      index := index - 1;
      ghost var tail := encoded[index + 1..];
      encoded[index] := ALPHABET[rest % 32];
      assert encoded[index..] == [ALPHABET[rest % 32]] + tail;
      rest := rest / 32;
    }
    s := encoded[..];
    assert encoded[0..] == encoded[..];
  }

  // ---------------------------------------------------------------- decoding

  /** The place of a character in the alphabet, looking from place `i` on; zero if it is not there. */
  function Place(c: char, i: nat): (d: nat)
    requires i <= 32
    decreases 32 - i
  {
    if i == 32 then 0 else if ALPHABET[i] == c then i else Place(c, i + 1)
  }

  function Decode(s: string): nat {
    if s == "" then 0 else 32 * Decode(s[..|s| - 1]) + Place(s[|s| - 1], 0)
  }

  lemma {:induction false} PlaceOf(i: nat, d: nat)
    requires i <= d < 32
    ensures Place(ALPHABET[d], i) == d
    decreases 32 - i
  {
    if i < d {
      AlphabetAscends(i, d);
      PlaceOf(i + 1, d);
    }
  }

  /** What is left of a value once its last `n` digits are shifted out. */
  ghost function ShiftedOut(value: nat, n: nat): nat {
    if n == 0 then value else ShiftedOut(value / 32, n - 1)
  }

  lemma {:induction false} DigitsAndRest(value: nat, n: nat)
    ensures Decode(Encoded(value, n)) < Power(n)
    ensures value == ShiftedOut(value, n) * Power(n) + Decode(Encoded(value, n))
  {
    if n > 0 {
      var s := Encoded(value, n);
      assert s[..n - 1] == Encoded(value / 32, n - 1) && s[n - 1] == ALPHABET[value % 32];
      PlaceOf(0, value % 32);
      DigitsAndRest(value / 32, n - 1);
      Recombine(value, Power(n - 1), ShiftedOut(value, n), Decode(Encoded(value / 32, n - 1)));
    }
  }

  lemma Recombine(value: nat, p: nat, q: nat, low: nat)
    requires value / 32 == q * p + low && low < p
    ensures 32 * low + value % 32 < 32 * p && value == q * (32 * p) + (32 * low + value % 32)
  {
    assert q * (32 * p) == 32 * (q * p);
  }

  lemma Multiple(d: int, m: nat)
    ensures d == 0 || d * m >= m || d * m <= -(m as int)
  {
    if d >= 1 {
      assert (d - 1) * m >= 0;
    } else if d <= -1 {
      assert (-d - 1) * m >= 0;
    }
  }

  lemma RemainderIs(value: nat, m: nat, q: nat, r: nat)
    requires m > 0 && r < m && value == q * m + r
    ensures value % m == r
  {
    var d := value / m - q;
    assert value == (value / m) * m + value % m;
    assert d * m == (value / m) * m - q * m;
    Multiple(d, m);
  }

  /** Round trip: decoding gives the value modulo 32 to the length, hence the value itself where it fits. */
  lemma DecodeEncoded(value: nat, n: nat)
    ensures Decode(Encoded(value, n)) == value % Power(n)
    ensures value < Power(n) ==> Decode(Encoded(value, n)) == value
  {
    DigitsAndRest(value, n);
    var digits := Decode(Encoded(value, n));
    RemainderIs(value, Power(n), ShiftedOut(value, n), digits);
    if value < Power(n) { RemainderIs(value, Power(n), 0, value); }
  }

  /** Encodings of one length sort like the numbers they keep. */
  lemma {:induction false} EncodedOrder(a: nat, b: nat, n: nat)
    requires a < Power(n) && b < Power(n)
    ensures Before(Encoded(a, n), Encoded(b, n)) <==> a < b
    ensures Encoded(a, n) == Encoded(b, n) <==> a == b
  {
    if n > 0 {
      var x, y := a % 32, b % 32;
      EncodedOrder(a / 32, b / 32, n - 1);
      var c, d: string := [ALPHABET[x]], [ALPHABET[y]];
      BeforeSplit(Encoded(a / 32, n - 1), Encoded(b / 32, n - 1), c, d);
      DigitOrder(x, y);
      var s, t := Encoded(a, n), Encoded(b, n);
      assert s[..n - 1] == Encoded(a / 32, n - 1) && t[..n - 1] == Encoded(b / 32, n - 1);
      assert s[n - 1] == ALPHABET[x] && t[n - 1] == ALPHABET[y];
    }
  }

  lemma DigitOrder(x: nat, y: nat)
    requires x < 32 && y < 32
    ensures ALPHABET[x] < ALPHABET[y] <==> x < y
    ensures ALPHABET[x] == ALPHABET[y] <==> x == y
    ensures Before([ALPHABET[x]], [ALPHABET[y]]) <==> x < y
  {
    if x < y { AlphabetAscends(x, y); } else if y < x { AlphabetAscends(y, x); }
  }

  // ---------------------------------------------------------------- identifiers

  const TIMESTAMPS := 0x1_0000_0000_0000

  lemma Widths()
    ensures TIMESTAMPS <= Power(10) && Power(16) == 0x1_0000_0000_0000_0000_0000
  {
    assert Power(5) == 0x200_0000;
    assert Power(10) == 0x200_0000 * Power(5);
    assert Power(15) == 0x200_0000 * Power(10);
  }

  /** `new_id`, with the clock in milliseconds and the ten random bytes as parameters. */
  function NewId(prefix: string, clock: nat, randomness: nat): string {
    prefix + "_" + (Encoded(clock % TIMESTAMPS, 10) + Encoded(randomness, 16))
  }

  /** `derived_id`, with the digest of the parts as a parameter. */
  function DerivedId(prefix: string, digest: nat): string {
    prefix + "_" + Encoded(digest, 26)
  }

  predicate HasPrefix(value: string, prefix: string) {
    prefix + "_" <= value && |value| == |prefix| + 27
  }

  /** An identifier passes the check of its own kind and of no kind with another prefix. */
  lemma PrefixIdentifiesKind(mine: string, other: string, clock: nat, randomness: nat, digest: nat)
    ensures HasPrefix(NewId(mine, clock, randomness), other) <==> mine == other
    ensures HasPrefix(DerivedId(mine, digest), other) <==> mine == other
  {
    OnlyOwnPrefix(mine, other, Encoded(clock % TIMESTAMPS, 10) + Encoded(randomness, 16));
    OnlyOwnPrefix(mine, other, Encoded(digest, 26));
  }

  /** A derived identifier keeps the last 130 bits of its digest. */
  lemma DerivedReadsBack(prefix: string, digest: nat)
    ensures Decode(DerivedId(prefix, digest)[|prefix| + 1..]) == digest % Power(26)
  {
    assert DerivedId(prefix, digest)[|prefix| + 1..] == Encoded(digest, 26);
    DecodeEncoded(digest, 26);
  }

  lemma OnlyOwnPrefix(mine: string, other: string, body: string)
    requires |body| == 26
    ensures HasPrefix(mine + "_" + body, other) <==> mine == other
  {
    var value := mine + "_" + body;
    assert value[..|mine|] == mine && value[|mine|] == '_';
    if HasPrefix(value, other) {
      assert value[..|other| + 1] == other + "_";
      assert value[..|other|] == other;
    }
  }

  /**
   Identifiers of one kind sort by timestamp, then by randomness, up to the wrap-around of the
   48-bit millisecond clock; and the timestamp can be read back.
   */
  lemma IdsSortByTime(prefix: string, t: nat, r: nat, u: nat, q: nat)
    requires r < 0x1_0000_0000_0000_0000_0000 && q < 0x1_0000_0000_0000_0000_0000
    ensures Before(NewId(prefix, t, r), NewId(prefix, u, q)) <==>
              t % TIMESTAMPS < u % TIMESTAMPS || (t % TIMESTAMPS == u % TIMESTAMPS && r < q)
    ensures Decode(NewId(prefix, t, r)[|prefix| + 1..|prefix| + 11]) == t % TIMESTAMPS
  {
    Widths();
    var a, b := Encoded(t % TIMESTAMPS, 10), Encoded(u % TIMESTAMPS, 10);
    var c, d := Encoded(r, 16), Encoded(q, 16);
    BeforeSplit(prefix + "_", prefix + "_", a + c, b + d);
    BeforeIsTotal(prefix + "_", prefix + "_");
    BeforeSplit(a, b, c, d);
    EncodedOrder(t % TIMESTAMPS, u % TIMESTAMPS, 10);
    EncodedOrder(r, q, 16);
    assert NewId(prefix, t, r)[|prefix| + 1..|prefix| + 11] == a;
    DecodeEncoded(t % TIMESTAMPS, 10);
  }
}
