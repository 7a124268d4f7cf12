/**
 The checker's set of linearized operations (porcupine/bitset.go): a slice of
 64-bit words, updated in place.

 A word is modelled bit by bit, so that the source's `|=`, `&^=`, `&` and `^=`
 are the pointwise operations below and `1 << minor` is `OneHot(minor)`.
 `Members` is the abstract value of a slice of words: the set of positions whose
 bit is on.
 */
module Bitset {
  const WIDTH := 64

  type Word = w: seq<bool> | |w| == WIDTH witness seq(WIDTH, i => false)

  const ZERO: Word := seq(WIDTH, i => false)

  function OneHot(m: nat): Word
    requires m < WIDTH
  {
    seq(WIDTH, i => i == m)
  }

  function Or(v: Word, w: Word): Word {
    seq(WIDTH, i requires 0 <= i < WIDTH => v[i] || w[i])
  }

  function AndNot(v: Word, w: Word): Word {
    seq(WIDTH, i requires 0 <= i < WIDTH => v[i] && !w[i])
  }

  function And(v: Word, w: Word): Word {
    seq(WIDTH, i requires 0 <= i < WIDTH => v[i] && w[i])
  }

  function Xor(v: Word, w: Word): Word {
    seq(WIDTH, i requires 0 <= i < WIDTH => v[i] != w[i])
  }

  /** The conversion `uint64(n)`: the low 64 bits of n, least significant first. */
  function ToWord(n: nat): Word {
    Digits(n, WIDTH)
  }

  function Digits(n: nat, width: nat): (bits: seq<bool>)
    ensures |bits| == width
  {
    if width == 0 then [] else [n % 2 == 1] + Digits(n / 2, width - 1)
  }

  /** The positions that a slice of words holds. */
  ghost function Members(b: seq<Word>): set<nat> {
    set p: nat | p < WIDTH * |b| && b[p / WIDTH][p % WIDTH]
  }

  /** How many bits of a word are on. */
  function OnesCount(w: seq<bool>): nat {
    if w == [] then 0 else (if w[0] then 1 else 0) + OnesCount(w[1..])
  }

  function PopcntOf(b: seq<Word>): nat {
    if b == [] then 0 else PopcntOf(b[..|b| - 1]) + OnesCount(b[|b| - 1])
  }

  function XorFold(seed: Word, b: seq<Word>): Word {
    if b == [] then seed else Xor(XorFold(seed, b[..|b| - 1]), b[|b| - 1])
  }

  /** The bucket that a slice of words falls in. */
  function HashOf(b: seq<Word>): Word {
    XorFold(ToWord(PopcntOf(b)), b)
  }

  lemma XorCancels(u: Word, v: Word, w: Word)
    requires Xor(u, w) == Xor(v, w) || Xor(w, u) == Xor(w, v)
    ensures u == v
  {
    forall i | 0 <= i < WIDTH
      ensures u[i] == v[i]
    {
      assert Xor(u, w)[i] == (u[i] != w[i]) && Xor(v, w)[i] == (v[i] != w[i]);
      assert Xor(w, u)[i] == (w[i] != u[i]) && Xor(w, v)[i] == (w[i] != v[i]);
    }
  }

  lemma {:induction false} FoldTells(seed: Word, b: seq<Word>, c: seq<Word>, k: nat)
    requires |b| == |c| && k < |b| && b[k] != c[k] && forall i :: 0 <= i < |b| && i != k ==> b[i] == c[i]
    ensures XorFold(seed, b) != XorFold(seed, c)
  {
    var n := |b| - 1;
    if k == n {
      assert b[..n] == c[..n];
      if XorFold(seed, b) == XorFold(seed, c) {
        XorCancels(b[n], c[n], XorFold(seed, b[..n]));
        assert false;
      }
    } else {
      FoldTells(seed, b[..n], c[..n], k);
      if XorFold(seed, b) == XorFold(seed, c) {
        XorCancels(XorFold(seed, b[..n]), XorFold(seed, c[..n]), b[n]);
        assert false;
      }
    }
  }

  /** Sets of one size that differ in one word only fall into different buckets. */
  lemma HashTells(b: seq<Word>, c: seq<Word>, k: nat)
    requires |b| == |c| && k < |b| && b[k] != c[k] && forall i :: 0 <= i < |b| && i != k ==> b[i] == c[i]
    requires PopcntOf(b) == PopcntOf(c)
    ensures HashOf(b) != HashOf(c)
  {
    FoldTells(ToWord(PopcntOf(b)), b, c, k);
  }

  method NewBitset(bits: nat) returns (b: array<Word>)
    ensures fresh(b)
    ensures b.Length == (bits + WIDTH - 1) / WIDTH
    ensures Members(b[..]) == {}
  {
    var extra := if bits % WIDTH != 0 then 1 else 0;
    b := new Word[bits / WIDTH + extra](i => ZERO);
  }

  method Clone(b: array<Word>) returns (copy: array<Word>)
    ensures fresh(copy)
    ensures copy[..] == b[..]
  {
    copy := new Word[b.Length](i requires 0 <= i < b.Length reads b => b[i]);
  }

  method Set(b: array<Word>, pos: nat)
    requires pos < WIDTH * b.Length
    modifies b
    ensures Members(b[..]) == old(Members(b[..])) + {pos}
  {
    b[pos / WIDTH] := Or(b[pos / WIDTH], OneHot(pos % WIDTH));
    SplitPosition(pos);
  }

  method Clear(b: array<Word>, pos: nat)
    requires pos < WIDTH * b.Length
    modifies b
    ensures Members(b[..]) == old(Members(b[..])) - {pos}
  {
    b[pos / WIDTH] := AndNot(b[pos / WIDTH], OneHot(pos % WIDTH));
    SplitPosition(pos);
  }

  method Get(b: array<Word>, pos: nat) returns (on: bool)
    requires pos < WIDTH * b.Length
    ensures on <==> pos in Members(b[..])
  {
    var word := And(b[pos / WIDTH], OneHot(pos % WIDTH));
    on := word != ZERO;
    assert word[pos % WIDTH] == b[pos / WIDTH][pos % WIDTH];
    assert on ==> exists i :: 0 <= i < WIDTH && word[i] != ZERO[i];
  }

  /** A position is determined by its word and its bit. */
  lemma SplitPosition(pos: nat)
    ensures forall q: nat :: q / WIDTH == pos / WIDTH && q % WIDTH == pos % WIDTH ==> q == pos
  {
  }

  method Popcnt(b: array<Word>) returns (total: nat)
    ensures total == PopcntOf(b[..])
    ensures total == |Members(b[..])|
  {
    total := 0;
    for i := 0 to b.Length
      invariant total == PopcntOf(b[..i])
    {
      total := total + OnesCount(b[i]);
      assert b[..i + 1][..i] == b[..i];
    }
    assert b[..b.Length] == b[..];
    PopcntCountsMembers(b[..]);
  }

  method Hash(b: array<Word>) returns (hash: Word)
    ensures hash == HashOf(b[..])
  {
    var total := Popcnt(b);
    hash := ToWord(total);
    for i := 0 to b.Length
      invariant hash == XorFold(ToWord(total), b[..i])
    {
      hash := Xor(hash, b[i]);
      assert b[..i + 1][..i] == b[..i];
    }
    assert b[..b.Length] == b[..];
  }

  /** Word-by-word comparison decides equality of the sets. */
  method Equals(b: array<Word>, b2: seq<Word>) returns (same: bool)
    ensures same <==> b[..] == b2
    ensures b.Length == |b2| ==> (same <==> Members(b[..]) == Members(b2))
  {
    if b.Length != |b2| {
      return false;
    }
    for i := 0 to b.Length
      invariant b[..i] == b2[..i]
    {
      if b[i] != b2[i] {
        WordsDiffer(b[..], b2, i);
        return false;
      }
    }
    return true;
  }

  lemma WordsDiffer(b: seq<Word>, b2: seq<Word>, i: nat)
    requires |b| == |b2| && i < |b| && b[i] != b2[i]
    ensures Members(b) != Members(b2)
  {
    var k :| 0 <= k < WIDTH && b[i][k] != b2[i][k];
    var pos := WIDTH * i + k;
    assert pos / WIDTH == i && pos % WIDTH == k;
    assert (pos in Members(b)) != (pos in Members(b2));
  }

  /** OnesCount is the number of positions that are on. */
  lemma {:induction false} OnesCountIsCardinality(w: seq<bool>)
    ensures OnesCount(w) == |set i | 0 <= i < |w| && w[i]|
  {
    var on := set i | 0 <= i < |w| && w[i];
    if w == [] {
      assert on == {};
    } else {
      var rest := set i | 0 <= i < |w[1..]| && w[1..][i];
      OnesCountIsCardinality(w[1..]);
      ShiftedCardinality(rest, 1);
      var shifted := set i | i in rest :: i + 1;
      assert forall i :: 0 < i < |w| ==> (w[i] <==> (i - 1) in rest);
      assert forall i :: i in on && i != 0 ==> (i - 1) in rest && (i - 1) + 1 == i;
      assert on == shifted + (if w[0] then {0} else {});
    }
  }

  lemma Pick<T>(s: set<T>) returns (x: T)
    requires s != {}
    ensures x in s
  {
    x :| x in s;
  }

  lemma {:induction false} ShiftedCardinality(s: set<int>, d: int)
    ensures |set i | i in s :: i + d| == |s|
  {
    if s != {} {
      var x := Pick(s);
      var s' := s - {x};
      ShiftedCardinality(s', d);
      var shifted := set i | i in s' :: i + d;
      assert x + d !in shifted;
      assert (set i | i in s :: i + d) == shifted + {x + d} by {
        assert s == s' + {x};
      }
    }
  }

  /** The members of the last word are those at its positions. */
  lemma LastWord(b: seq<Word>, on: set<int>, high: set<int>)
    requires b != [] && forall i :: i in on <==> 0 <= i < WIDTH && b[|b| - 1][i]
    requires high == set i | i in on :: i + WIDTH * (|b| - 1)
    ensures Members(b) == Members(b[..|b| - 1]) + high
    ensures Members(b[..|b| - 1]) !! high
  {
    var n, w := |b| - 1, b[|b| - 1];
    forall p: int
      ensures p in high <==> WIDTH * n <= p < WIDTH * n + WIDTH && w[p - WIDTH * n]
    {
      if WIDTH * n <= p < WIDTH * n + WIDTH && w[p - WIDTH * n] {
        assert (p - WIDTH * n) in on && (p - WIDTH * n) + WIDTH * n in high;
      }
    }
    forall p: nat
      ensures p in Members(b) <==> p in Members(b[..n]) || p in high
    {
    }
  }

  lemma {:induction false} PopcntCountsMembers(b: seq<Word>)
    ensures PopcntOf(b) == |Members(b)|
  {
    if b == [] {
      assert Members(b) == {};
    } else {
      var n := |b| - 1;
      var low, w := b[..n], b[n];
      PopcntCountsMembers(low);
      OnesCountIsCardinality(w);
      var on := set i | 0 <= i < |w| && w[i];
      ShiftedCardinality(on, WIDTH * n);
      var high := set i | i in on :: i + WIDTH * n;
      LastWord(b, on, high);
    }
  }
}
