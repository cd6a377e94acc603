/** Deterministic resource names: version 5 UUIDs (section 5.5 of RFC 9562) rehashed until the
    text starts with a letter. The hash is a parameter, and nothing is assumed of it. */
module ResourceId {
  newtype Byte = x: int | 0 <= x < 256

  type Bytes = seq<Byte>

  /** The sixteen bytes of a UUID. */
  type Uuid = b: Bytes | |b| == 16 witness seq(16, i => 0)

  /** uuid.NewSHA1 for a fixed namespace. */
  type Hash = Bytes -> Uuid

  const HEX: string := "0123456789abcdef"

  function Hex(b: Bytes): (s: string)
    ensures |s| == 2 * |b|
    ensures forall i | 0 <= i < |b| :: s[2 * i] == HEX[b[i] as int / 16] && s[2 * i + 1] == HEX[b[i] as int % 16]
  {
    if b == [] then []
    else
      var last := |b| - 1;
      Hex(b[..last]) + [HEX[b[last] as int / 16], HEX[b[last] as int % 16]]
  }

  function Dashed(a: string, b: string, c: string, d: string, e: string): (s: string)
    ensures |s| >= |a|
  {
    a + "-" + b + "-" + c + "-" + d + "-" + e
  }

  /** The canonical text form. */
  function Text(u: Uuid): string {
    Dashed(Hex(u[..4]), Hex(u[4..6]), Hex(u[6..8]), Hex(u[8..10]), Hex(u[10..]))
  }

  /** Where the two digits of the `i`-th byte are, past the dashes. */
  function At(i: nat): nat {
    2 * i + if i < 4 then 0 else if i < 6 then 1 else if i < 8 then 2 else if i < 10 then 3 else 4
  }

  /** What a lowercase hexadecimal digit stands for. */
  function Value(c: char): int {
    if '0' <= c <= '9' then c as int - '0' as int else c as int - 'a' as int + 10
  }

  predicate LowerHex(c: char) {
    '0' <= c <= '9' || 'a' <= c <= 'f'
  }

  lemma DigitMeans(x: int)
    requires 0 <= x < 16
    ensures LowerHex(HEX[x]) && Value(HEX[x]) == x
  {
  }

  lemma DigitsOf(u: Uuid, from: nat, to: nat, i: nat)
    requires from <= i < to <= 16
    ensures
      var piece, at := Hex(u[from..to]), 2 * (i - from);
      piece[at] == HEX[u[i] as int / 16] && piece[at + 1] == HEX[u[i] as int % 16]
  {
    assert u[from..to][i - from] == u[i];
  }

  lemma PlacedIn(a: string, b: string, c: string, d: string, e: string)
    requires |a| == 8 && |b| == |c| == |d| == 4 && |e| == 12
    ensures
      var s := Dashed(a, b, c, d, e);
      && |s| == 36 && s[8] == s[13] == s[18] == s[23] == '-'
      && s[..8] == a && s[9..13] == b && s[14..18] == c && s[19..23] == d && s[24..] == e
  {
  }

  lemma PiecesOf(u: Uuid, i: nat)
    requires i < 16
    ensures |Text(u)| == 36 && At(i) + 1 < 36
    ensures Text(u)[8] == Text(u)[13] == Text(u)[18] == Text(u)[23] == '-'
    ensures Text(u)[At(i)] == HEX[u[i] as int / 16] && Text(u)[At(i) + 1] == HEX[u[i] as int % 16]
  {
    assert u[0..4] == u[..4] && u[10..16] == u[10..];
    PlacedIn(Hex(u[..4]), Hex(u[4..6]), Hex(u[6..8]), Hex(u[8..10]), Hex(u[10..]));
    var from, to :=
      if i < 4 then 0 else if i < 6 then 4 else if i < 8 then 6 else if i < 10 then 8 else 10,
      if i < 4 then 4 else if i < 6 then 6 else if i < 8 then 8 else if i < 10 then 10 else 16;
    DigitsOf(u, from, to, i);
  }

  /** A text of 36 characters, dashes in the four places where a UUID has them and lowercase
      hexadecimal digits everywhere else. */
  ghost predicate Canonical(s: string) {
    && |s| == 36
    && forall p | 0 <= p < 36 :: if p in {8, 13, 18, 23} then s[p] == '-' else LowerHex(s[p])
  }

  /** Every other place holds a digit of some byte. */
  lemma DigitPlaces(p: nat) returns (i: nat)
    requires p < 36 && p !in {8, 13, 18, 23}
    ensures i < 16 && (p == At(i) || p == At(i) + 1)
  {
    i := (p - if p < 8 then 0 else if p < 13 then 1 else if p < 18 then 2 else if p < 23 then 3 else 4) / 2;
  }

  /** The text form is canonical and spells the bytes in order, high digit first. */
  lemma TextSpells(u: Uuid)
    ensures Canonical(Text(u))
    ensures forall i: nat | i < 16 :: Value(Text(u)[At(i)]) * 16 + Value(Text(u)[At(i) + 1]) == u[i] as int
  {
    var s := Text(u);
    PiecesOf(u, 0);
    forall p | 0 <= p < 36 ensures if p in {8, 13, 18, 23} then s[p] == '-' else LowerHex(s[p]) {
      if p !in {8, 13, 18, 23} {
        var i := DigitPlaces(p);
        PiecesOf(u, i);
        DigitMeans(u[i] as int / 16);
        DigitMeans(u[i] as int % 16);
      }
    }
    forall i: nat | i < 16 ensures Value(s[At(i)]) * 16 + Value(s[At(i) + 1]) == u[i] as int {
      PiecesOf(u, i);
      DigitMeans(u[i] as int / 16);
      DigitMeans(u[i] as int % 16);
    }
  }

  lemma TextIsInjective(u: Uuid, v: Uuid)
    requires Text(u) == Text(v)
    ensures u == v
  {
    TextSpells(u);
    TextSpells(v);
    forall i: nat | i < 16 ensures u[i] == v[i] {
      assert u[i] as int == v[i] as int;
    }
  }

  predicate IsLetter(c: char) {
    'a' <= c <= 'z' || 'A' <= c <= 'Z'
  }

  /** Read off the first byte; LetterFirst ties it to the text. */
  predicate StartsWithLetter(u: Uuid) {
    u[0] >= 0xa0
  }

  lemma LetterDigits(x: int)
    requires 0 <= x < 16
    ensures IsLetter(HEX[x]) <==> x >= 10
  {
  }

  lemma FirstOfFive(a: string, b: string, c: string, d: string, e: string)
    requires a != []
    ensures Dashed(a, b, c, d, e)[0] == a[0]
  {
  }

  lemma LetterFirst(u: Uuid)
    ensures Text(u) != [] && (IsLetter(Text(u)[0]) <==> StartsWithLetter(u))
  {
    var head := Hex(u[..4]);
    assert head[2 * 0] == HEX[u[..4][0] as int / 16];
    FirstOfFive(head, Hex(u[4..6]), Hex(u[6..8]), Hex(u[8..10]), Hex(u[10..]));
    LetterDigits(u[0] as int / 16);
  }

  function Input(h: Hash, seed: Bytes, k: nat): Bytes {
    if k == 0 then seed else h(Input(h, seed, k - 1))
  }

  /** The k-th UUID of a seed's rehash chain, and what was hashed to get it. */
  function Chain(h: Hash, seed: Bytes, k: nat): Uuid {
    h(Input(h, seed, k))
  }

  /** The loop stops at the k-th UUID. */
  ghost predicate StopsAt(h: Hash, seed: Bytes, k: nat) {
    && StartsWithLetter(Chain(h, seed, k))
    && forall j: nat | j < k :: !StartsWithLetter(Chain(h, seed, j))
  }

  /** unicode.IsLetter on the first character of the text. */
  method FirstIsLetter(u: Uuid) returns (letter: bool)
    ensures letter <==> StartsWithLetter(u)
  {
    LetterFirst(u);
    letter := IsLetter(Text(u)[0]);
  }

  /** The loop as written; `bound` witnesses that some UUID of the chain starts with a letter,
      without which the loop would not end. */
  method GenerateDeterministicResourceID(h: Hash, seed: Bytes, ghost bound: nat) returns (name: string)
    requires StartsWithLetter(Chain(h, seed, bound))
    ensures exists k: nat :: StopsAt(h, seed, k) && name == Text(Chain(h, seed, k))
    ensures Canonical(name) && 'a' <= name[0] <= 'f'
  {
    var id := h(seed);
    ghost var k := 0;
    var letter := FirstIsLetter(id);
    while !letter
      invariant k <= bound && id == Chain(h, seed, k)
      invariant letter <==> StartsWithLetter(id)
      invariant forall j: nat | j < k :: !StartsWithLetter(Chain(h, seed, j))
      decreases bound - k
    {
      id := h(id);
      k := k + 1;
      letter := FirstIsLetter(id);
    }
    name := Text(id);
    assert StopsAt(h, seed, k);
    LetterFirst(id);
    TextSpells(id);
    assert LowerHex(name[0]);
  }

  /** Two chains, cut off at `m` and `n`, contain a collision of the hash. */
  ghost predicate Collide(h: Hash, a: Bytes, m: nat, b: Bytes, n: nat) {
    exists i: nat, j: nat | i <= m && j <= n ::
      Input(h, a, i) != Input(h, b, j) && h(Input(h, a, i)) == h(Input(h, b, j))
  }

  /** Equal UUIDs on two chains are due to a collision, or the chains have run together from one
      invariant on: it is itself on the other's chain, as many steps before the end. */
  lemma {:induction false} EqualUuids(h: Hash, a: Bytes, m: nat, b: Bytes, n: nat)
    requires Chain(h, a, m) == Chain(h, b, n)
    ensures Collide(h, a, m, b, n) || (m <= n && a == Input(h, b, n - m)) || (n <= m && b == Input(h, a, m - n))
    decreases m
  {
    if Input(h, a, m) == Input(h, b, n) && m > 0 && n > 0 {
      EqualUuids(h, a, m - 1, b, n - 1);
    }
  }

  /** Two distinct invariants that are not sixteen bytes long get the same name only through two
      distinct inputs on their chains that hash to the same UUID. */
  lemma CollisionReduction(h: Hash, a: Bytes, m: nat, b: Bytes, n: nat)
    requires StopsAt(h, a, m) && StopsAt(h, b, n) && a != b && |a| != 16 && |b| != 16
    requires Text(Chain(h, a, m)) == Text(Chain(h, b, n))
    ensures Collide(h, a, m, b, n)
  {
    TextIsInjective(Chain(h, a, m), Chain(h, b, n));
    EqualUuids(h, a, m, b, n);
  }

  lemma {:induction false} ChainFrom(h: Hash, a: Bytes, i: nat, k: nat)
    ensures Input(h, a, i + k) == Input(h, Input(h, a, i), k)
    ensures Chain(h, a, i + k) == Chain(h, Input(h, a, i), k)
    decreases k
  {
    if k > 0 { ChainFrom(h, a, i, k - 1); }
  }

  /** The length condition matters: an invariant made of the bytes of a UUID the loop passed over
      gets the name of the invariant it came from, whatever the hash. */
  lemma PassedOverUuidIsASecondInvariant(h: Hash, a: Bytes, m: nat, i: nat)
    requires StopsAt(h, a, m) && 0 < i <= m
    ensures StopsAt(h, Input(h, a, i), m - i)
    ensures Chain(h, Input(h, a, i), m - i) == Chain(h, a, m)
  {
    ChainFrom(h, a, i, m - i);
    forall j: nat | j < m - i ensures !StartsWithLetter(Chain(h, Input(h, a, i), j)) {
      ChainFrom(h, a, i, j);
    }
  }

  lemma SameStop(h: Hash, a: Bytes, k: nat, k': nat)
    requires StopsAt(h, a, k) && StopsAt(h, a, k')
    ensures k == k'
  {
  }

  /** Without a collision on their chains, two distinct invariants share a name exactly when one is
      the bytes of a UUID the other's loop passed over. */
  lemma SameNameIff(h: Hash, a: Bytes, m: nat, b: Bytes, n: nat)
    requires StopsAt(h, a, m) && StopsAt(h, b, n) && a != b && !Collide(h, a, m, b, n)
    ensures Chain(h, a, m) == Chain(h, b, n) <==>
            (exists i: nat | 0 < i <= n :: a == Input(h, b, i)) || (exists i: nat | 0 < i <= m :: b == Input(h, a, i))
  {
    if Chain(h, a, m) == Chain(h, b, n) {
      EqualUuids(h, a, m, b, n);
    }
    if i: nat :| 0 < i <= n && a == Input(h, b, i) {
      PassedOverUuidIsASecondInvariant(h, b, n, i);
      SameStop(h, a, m, n - i);
    }
    if i: nat :| 0 < i <= m && b == Input(h, a, i) {
      PassedOverUuidIsASecondInvariant(h, a, m, i);
      SameStop(h, b, n, m - i);
    }
  }
}
