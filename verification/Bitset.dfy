/** Bit sets packed in 64-bit words: position p is bit p % 64 of word p / 64. */
module Bitset {

  function And(a: bv64, b: bv64): (r: bv64) { a & b }
  function Or(a: bv64, b: bv64): (r: bv64) { a | b }
  function AndNot(a: bv64, b: bv64): (r: bv64) { a & !b }

  function Minor(k: nat): (r: bv6)
    requires k < 64
  {
    k as bv6
  }

  /** The word with only bit `k` set. */
  function Mask(k: nat): (r: bv64)
    requires k < 64
  {
    1 << Minor(k)
  }

  predicate Bit(w: bv64, k: nat)
    requires k < 64
  {
    And(w, Mask(k)) != 0
  }

  ghost function Members(words: seq<bv64>): (r: set<int>) {
    set p | 0 <= p < 64 * |words| && Bit(words[p / 64], p % 64)
  }

  ghost function SetBit(words: seq<bv64>, pos: nat): (r: seq<bv64>)
    requires pos < 64 * |words|
    ensures |r| == |words|
  {
    words[pos / 64 := Or(words[pos / 64], Mask(pos % 64))]
  }

  ghost function ClearBit(words: seq<bv64>, pos: nat): (r: seq<bv64>)
    requires pos < 64 * |words|
    ensures |r| == |words|
  {
    words[pos / 64 := AndNot(words[pos / 64], Mask(pos % 64))]
  }

  lemma OrKeeps(w: bv64, x: bv64, y: bv64)
    requires x & y == 0
    ensures (w | x) & y == w & y
  {
  }

  lemma AndNotKeeps(w: bv64, x: bv64, y: bv64)
    requires x & y == 0
    ensures (w & !x) & y == w & y
  {
  }

  lemma OrAnd(w: bv64, x: bv64, y: bv64)
    requires And(x, y) == 0
    ensures And(Or(w, x), y) == And(w, y)
  {
    OrKeeps(w, x, y);
  }

  lemma AndNotAnd(w: bv64, x: bv64, y: bv64)
    requires And(x, y) == 0
    ensures And(AndNot(w, x), y) == And(w, y)
  {
    AndNotKeeps(w, x, y);
  }

  lemma OrSelf(w: bv64, x: bv64)
    ensures And(Or(w, x), x) == x
    ensures And(AndNot(w, x), x) == 0
  {
  }

  lemma AndNotOr(w: bv64, x: bv64)
    requires And(w, x) == 0
    ensures AndNot(Or(w, x), x) == w
  {
  }

  lemma ShiftsDisjoint(m: bv6, k: bv6)
    ensures 1 as bv64 << m != 0
    ensures m != k ==> And(1 << m, 1 << k) == 0
  {
  }

  lemma MinorRoundTrip(k: nat)
    requires k < 64
    ensures Minor(k) as nat == k
  {
  }

  lemma MinorInjective(m: nat, k: nat)
    requires m < 64 && k < 64 && m != k
    ensures Minor(m) != Minor(k)
  {
    hide Minor;
    MinorRoundTrip(m);
    MinorRoundTrip(k);
  }

  lemma MasksDisjoint(m: nat, k: nat)
    requires m < 64 && k < 64
    ensures Mask(m) != 0
    ensures m != k ==> And(Mask(m), Mask(k)) == 0
  {
    hide Minor, And;
    ShiftsDisjoint(Minor(m), Minor(k));
    if m != k { MinorInjective(m, k); }
  }

  lemma WordBits(w: bv64, m: nat, k: nat)
    requires m < 64 && k < 64
    ensures Bit(Or(w, Mask(m)), k) <==> m == k || Bit(w, k)
    ensures Bit(AndNot(w, Mask(m)), k) <==> m != k && Bit(w, k)
  {
    hide Mask, And, Or, AndNot;
    MasksDisjoint(m, k);
    if m == k {
      OrSelf(w, Mask(m));
    } else {
      OrAnd(w, Mask(m), Mask(k));
      AndNotAnd(w, Mask(m), Mask(k));
    }
  }

  lemma MembersOfSet(words: seq<bv64>, pos: nat)
    requires pos < 64 * |words|
    ensures Members(SetBit(words, pos)) == Members(words) + {pos}
  {
    hide Bit, Mask, And, Or, AndNot;
    forall p | 0 <= p < 64 * |words|
      ensures p in Members(SetBit(words, pos)) <==> p == pos || p in Members(words)
    {
      WordBits(words[pos / 64], pos % 64, p % 64);
    }
  }

  lemma MembersOfClear(words: seq<bv64>, pos: nat)
    requires pos < 64 * |words|
    ensures Members(ClearBit(words, pos)) == Members(words) - {pos}
  {
    hide Bit, Mask, And, Or, AndNot;
    forall p | 0 <= p < 64 * |words|
      ensures p in Members(ClearBit(words, pos)) <==> p != pos && p in Members(words)
    {
      WordBits(words[pos / 64], pos % 64, p % 64);
    }
  }

  /** Clearing a bit that was just set gives back the same words. */
  lemma ClearUndoesSet(words: seq<bv64>, pos: nat)
    requires pos < 64 * |words| && pos !in Members(words)
    ensures ClearBit(SetBit(words, pos), pos) == words
  {
    hide Mask, And, Or, AndNot;
    AndNotOr(words[pos / 64], Mask(pos % 64));
  }

  function Zeros(n: nat): (r: seq<bv64>) {
    seq(n, _ => 0)
  }

  lemma MembersOfZeros(n: nat)
    ensures Members(Zeros(n)) == {}
  {
  }

  method New(bits: nat) returns (b: array<bv64>)
    ensures fresh(b) && bits <= 64 * b.Length < bits + 64
    ensures b[..] == Zeros(b.Length) && Members(b[..]) == {}
  {
    var extra := if bits % 64 != 0 then 1 else 0;
    var chunks := bits / 64 + extra;
    b := new bv64[chunks](_ => 0);
    assert b[..] == Zeros(chunks);
    MembersOfZeros(chunks);
  }

  method Clone(b: array<bv64>) returns (c: array<bv64>)
    ensures fresh(c) && c[..] == b[..]
  {
    c := new bv64[b.Length](i requires 0 <= i < b.Length reads b => b[i]);
  }

  method Set(b: array<bv64>, pos: nat)
    requires pos < 64 * b.Length
    modifies b
    ensures b[..] == SetBit(old(b[..]), pos) && Members(b[..]) == old(Members(b[..])) + {pos}
  {
    MembersOfSet(b[..], pos);
    b[pos / 64] := Or(b[pos / 64], Mask(pos % 64));
    assert b[..] == SetBit(old(b[..]), pos);
  }

  method Clear(b: array<bv64>, pos: nat)
    requires pos < 64 * b.Length
    modifies b
    ensures b[..] == ClearBit(old(b[..]), pos) && Members(b[..]) == old(Members(b[..])) - {pos}
  {
    MembersOfClear(b[..], pos);
    b[pos / 64] := AndNot(b[pos / 64], Mask(pos % 64));
    assert b[..] == ClearBit(old(b[..]), pos);
  }

  method Get(b: array<bv64>, pos: nat) returns (r: bool)
    requires pos < 64 * b.Length
    ensures r <==> pos in Members(b[..])
  {
    r := And(b[pos / 64], Mask(pos % 64)) != 0;
  }

  method Equals(b: seq<bv64>, c: seq<bv64>) returns (r: bool)
    ensures r <==> b == c
  {
    if |b| != |c| { return false; }
    for i := 0 to |b|
      invariant b[..i] == c[..i]
    {
      if b[i] != c[i] { return false; }
    }
    assert b == b[..|b|] && c == c[..|c|];
    return true;
  }

  /** How many of the first `k` bits are set. */
  function OnesCount(w: bv64, k: nat): (r: nat)
    requires k <= 64
  {
    if k == 0 then 0 else OnesCount(w, k - 1) + (if Bit(w, k - 1) then 1 else 0)
  }

  ghost function OnesSum(words: seq<bv64>): (r: nat) {
    if words == [] then 0 else OnesSum(words[..|words| - 1]) + OnesCount(words[|words| - 1], 64)
  }

  /** The members below `q`. */
  ghost function Below(words: seq<bv64>, q: nat): (r: set<int>) {
    set p | p in Members(words) && p < q
  }

  lemma BelowNext(words: seq<bv64>, n: nat, k: nat)
    requires n < |words| && k < 64
    ensures |Below(words, 64 * n + k + 1)| == |Below(words, 64 * n + k)| + if Bit(words[n], k) then 1 else 0
  {
    hide Bit;
    var q := 64 * n + k;
    assert q / 64 == n && q % 64 == k;
    assert Below(words, q + 1) == Below(words, q) + if Bit(words[n], k) then {q} else {};
  }

  lemma {:induction false} BelowWord(words: seq<bv64>, n: nat, k: nat)
    requires n < |words| && k <= 64
    ensures |Below(words, 64 * n + k)| == |Below(words, 64 * n)| + OnesCount(words[n], k)
  {
    hide Bit;
    if k > 0 {
      BelowWord(words, n, k - 1);
      BelowNext(words, n, k - 1);
    }
  }

  lemma {:induction false} OnesCountIsSize(words: seq<bv64>, n: nat)
    requires n <= |words|
    ensures OnesSum(words[..n]) == |Below(words, 64 * n)|
  {
    if n == 0 {
      assert Below(words, 0) == {};
    } else {
      OnesCountIsSize(words, n - 1);
      BelowWord(words, n - 1, 64);
      assert words[..n][..n - 1] == words[..n - 1];
    }
  }

  /** The number of elements of the set. */
  method PopCount(b: seq<bv64>) returns (total: nat)
    ensures total == |Members(b)|
  {
    total := 0;
    for i := 0 to |b|
      invariant total == OnesSum(b[..i])
    {
      assert b[..i + 1][..i] == b[..i];
      total := total + OnesCount(b[i], 64);
    }
    assert b[..|b|] == b;
    OnesCountIsSize(b, |b|);
    assert Members(b) == Below(b, 64 * |b|);
  }

  ghost function Xor(words: seq<bv64>, start: bv64): (r: bv64) {
    if words == [] then start else Xor(words[..|words| - 1], start) ^ words[|words| - 1]
  }

  datatype Hash64 = Hash64(bits: bv64)

  /** Equal bit sets have equal hashes: the hash depends on nothing but the words. */
  ghost function HashOf(words: seq<bv64>): (r: Hash64) {
    Hash64(Xor(words, Low64(|Members(words)|)))
  }

  function Low64(n: nat): (r: bv64) {
    (n % 0x1_0000_0000_0000_0000) as bv64
  }

  method Hash(b: seq<bv64>) returns (r: Hash64)
    ensures r == HashOf(b)
  {
    hide Low64;
    var total := PopCount(b);
    var hash := Low64(total);
    ghost var start := hash;
    for i := 0 to |b|
      invariant hash == Xor(b[..i], start)
    {
      assert b[..i + 1][..i] == b[..i];
      hash := hash ^ b[i];
    }
    assert b[..|b|] == b;
    r := Hash64(hash);
  }
}
