/** Incremental fletcher4 over a stream of 32-bit words, as OpenZFS computes it. */
module Fletcher {
  import opened Bytes

  datatype Fletcher4 = Fletcher4(a: Word64, b: Word64, c: Word64, d: Word64) {
    predicate IsZero() { this == ZERO }
  }

  const ZERO := Fletcher4(0, 0, 0, 0)

  // ---- The checksum as a fold over words ----------------------------------

  function AddWord(f: Fletcher4, w: Word32): Fletcher4 {
    var a := Add64(f.a, w);
    var b := Add64(f.b, a);
    var c := Add64(f.c, b);
    Fletcher4(a, b, c, Add64(f.d, c))
  }

  function Fold(f: Fletcher4, ws: seq<Word32>): Fletcher4 {
    if ws == [] then f else AddWord(Fold(f, ws[..|ws| - 1]), ws[|ws| - 1])
  }

  function Words(s: seq<Byte>, swap: bool): (ws: seq<Word32>)
    requires |s| % 4 == 0
    ensures |ws| == |s| / 4
    ensures forall i :: 0 <= i < |ws| ==> ws[i] == Word32At(s, 4 * i, swap)
  {
    seq(|s| / 4, i requires 0 <= i < |s| / 4 => Word32At(s, 4 * i, swap))
  }

  /** The state after `update(data, swap)` from state `f`. */
  function Sum(f: Fletcher4, s: seq<Byte>, swap: bool): Fletcher4
    requires |s| % 4 == 0
  {
    Fold(f, Words(s, swap))
  }

  // ---- Feeding a stream in pieces -----------------------------------------

  lemma {:induction false} FoldConcat(f: Fletcher4, u: seq<Word32>, v: seq<Word32>)
    ensures Fold(f, u + v) == Fold(Fold(f, u), v)
    decreases |v|
  {
    if v == [] {
      assert u + v == u;
    } else {
      var n := |v| - 1;
      assert (u + v)[..|u + v| - 1] == u + v[..n];
      FoldConcat(f, u, v[..n]);
    }
  }

  lemma WordsConcat(s: seq<Byte>, t: seq<Byte>, swap: bool)
    requires |s| % 4 == 0 && |t| % 4 == 0
    ensures Words(s + t, swap) == Words(s, swap) + Words(t, swap)
  {
    forall i | 0 <= i < |s + t| / 4
      ensures Words(s + t, swap)[i] == (Words(s, swap) + Words(t, swap))[i]
    {
      if i < |s| / 4 {
        assert (s + t)[4 * i..4 * i + 4] == s[4 * i..4 * i + 4];
      } else {
        var j := i - |s| / 4;
        assert 4 * i == |s| + 4 * j;
        assert (s + t)[4 * i..4 * i + 4] == t[4 * j..4 * j + 4];
      }
    }
  }

  /** Feeding `s` then `t` is feeding `s + t`: the fletcher4 state is all that has to be carried. */
  lemma SumConcat(f: Fletcher4, s: seq<Byte>, t: seq<Byte>, swap: bool)
    requires |s| % 4 == 0 && |t| % 4 == 0
    ensures Sum(f, s + t, swap) == Sum(Sum(f, s, swap), t, swap)
  {
    WordsConcat(s, t, swap);
    FoldConcat(f, Words(s, swap), Words(t, swap));
  }

  lemma SumEmpty(f: Fletcher4, swap: bool)
    ensures Sum(f, [], swap) == f
  {
  }

  lemma FoldNext(f: Fletcher4, ws: seq<Word32>, i: nat)
    requires i < |ws|
    ensures Fold(f, ws[..i + 1]) == AddWord(Fold(f, ws[..i]), ws[i])
  {
    assert ws[..i + 1][..i] == ws[..i];
  }

  /** `update`: one pass over the words, four wrapping accumulators. */
  method Update(f: Fletcher4, data: seq<Byte>, swap: bool) returns (r: Fletcher4)
    requires |data| % 4 == 0
    ensures r == Sum(f, data, swap)
  {
    var a, b, c, d := f.a, f.b, f.c, f.d;
    ghost var ws := Words(data, swap);
    var i := 0;
    assert ws[..0] == [];
    while i < |data| / 4
      invariant 0 <= i <= |data| / 4
      invariant Fletcher4(a, b, c, d) == Fold(f, ws[..i])
    {
      FoldNext(f, ws, i);
      var word := Word32At(data, 4 * i, swap);
      a := Add64(a, word);
      b := Add64(b, a);
      c := Add64(c, b);
      d := Add64(d, c);
      i := i + 1;
    }
    assert ws[..i] == ws;
    r := Fletcher4(a, b, c, d);
  }

  // ---- As 32 bytes -----------------------------------------

  function FromStreamBytes(s: seq<Byte>, off: nat, swap: bool): Fletcher4
    requires off + 32 <= |s|
  {
    Fletcher4(Word64At(s, off, swap), Word64At(s, off + 8, swap),
              Word64At(s, off + 16, swap), Word64At(s, off + 24, swap))
  }

  function ToBytes(f: Fletcher4): (s: seq<Byte>)
    ensures |s| == 32 && FromStreamBytes(s, 0, false) == f
  {
    var a, b, c, d := Le64(f.a), Le64(f.b), Le64(f.c), Le64(f.d);
    var s := a + b + c + d;
    assert s[0..8] == a && s[8..16] == b && s[16..24] == c && s[24..32] == d;
    s
  }

  // ---- Closed forms and error detection -----------------------------------

  /** The plain sum of the words. */
  function Total(ws: seq<Word32>): int {
    if ws == [] then 0 else ws[0] + Total(ws[1..])
  }

  /** The sum in which the i-th of n words weighs n - i. */
  function Weighted(ws: seq<Word32>): int {
    if ws == [] then 0 else |ws| * ws[0] + Weighted(ws[1..])
  }

  lemma {:induction false} SumsSnoc(ws: seq<Word32>, w: Word32)
    ensures Total(ws + [w]) == Total(ws) + w
    ensures Weighted(ws + [w]) == Weighted(ws) + Total(ws + [w])
  {
    if ws == [] {
      assert ws + [w] == [w];
    } else {
      assert (ws + [w])[1..] == ws[1..] + [w];
      SumsSnoc(ws[1..], w);
      assert |ws + [w]| * ws[0] == |ws| * ws[0] + ws[0];
    }
  }

  /** The wrapping accumulators are the exact integer sums modulo 2^64. */
  lemma {:induction false} ClosedForm(ws: seq<Word32>)
    ensures Fold(ZERO, ws).a == Wrap64(Total(ws))
    ensures Fold(ZERO, ws).b == Wrap64(Weighted(ws))
  {
    if ws != [] {
      var front, last := ws[..|ws| - 1], ws[|ws| - 1];
      assert ws == front + [last];
      ClosedForm(front);
      SumsSnoc(front, last);
      assert Wrap64(last) == last;
      Add64Wraps(Total(front), last);
      Add64Wraps(Weighted(front), Total(ws));
      assert Fold(ZERO, ws) == AddWord(Fold(ZERO, front), last);
    }
  }

  /** 1 + 2 + ... + k. */
  function Triangle(k: nat): nat { if k == 0 then 0 else Triangle(k - 1) + k }

  /** Triangle(1) + Triangle(2) + ... + Triangle(k). */
  function Tetrahedron(k: nat): nat { if k == 0 then 0 else Tetrahedron(k - 1) + Triangle(k) }

  /** The sum in which the i-th of n words weighs Triangle(n - i). */
  function TriangleWeighted(ws: seq<Word32>): int {
    if ws == [] then 0 else Triangle(|ws|) * ws[0] + TriangleWeighted(ws[1..])
  }

  /** The sum in which the i-th of n words weighs Tetrahedron(n - i). */
  function TetrahedronWeighted(ws: seq<Word32>): int {
    if ws == [] then 0 else Tetrahedron(|ws|) * ws[0] + TetrahedronWeighted(ws[1..])
  }

  lemma {:induction false} TriangleClosed(k: nat)
    ensures 2 * Triangle(k) == k * (k + 1)
  {
    if k > 0 {
      TriangleClosed(k - 1);
      assert k * (k + 1) == (k - 1) * k + 2 * k;
    }
  }

  lemma {:induction false} TetrahedronClosed(k: nat)
    ensures 6 * Tetrahedron(k) == k * (k + 1) * (k + 2)
  {
    if k > 0 {
      TetrahedronClosed(k - 1);
      TriangleClosed(k);
      NextProduct(k - 1, k, k * (k + 1));
    }
  }

  lemma NextProduct(j: nat, k: nat, p: nat)
    requires k == j + 1 && p == k * (k + 1)
    ensures p * (k + 2) == j * (j + 1) * (j + 2) + 3 * p
  {
    assert j * (j + 1) * (j + 2) == j * ((j + 1) * (j + 2));
    assert p * (k + 2) == p * j + p * 3;
  }

  /** One word more: every weight moves up by one, and the moves add up to the next lower sum. */
  lemma {:induction false} HigherSumsSnoc(ws: seq<Word32>, w: Word32)
    ensures TriangleWeighted(ws + [w]) == TriangleWeighted(ws) + Weighted(ws + [w])
    ensures TetrahedronWeighted(ws + [w]) == TetrahedronWeighted(ws) + TriangleWeighted(ws + [w])
  {
    if ws == [] {
      assert ws + [w] == [w] && [w][1..] == [];
      assert Triangle(1) == 1 && Tetrahedron(1) == 1;
    } else {
      assert (ws + [w])[1..] == ws[1..] + [w];
      HigherSumsSnoc(ws[1..], w);
      var n := |ws|;
      assert Triangle(n + 1) == Triangle(n) + (n + 1) && Tetrahedron(n + 1) == Tetrahedron(n) + Triangle(n + 1);
      Distribute(Triangle(n), n + 1, ws[0]);
      Distribute(Tetrahedron(n), Triangle(n + 1), ws[0]);
    }
  }

  lemma Distribute(x: int, y: int, z: int)
    ensures (x + y) * z == x * z + y * z
  {
  }

  /** The other two: the i-th of n words weighs k(k+1)/2 in `c` and k(k+1)(k+2)/6 in `d`, k = n - i. */
  lemma {:induction false} HigherClosedForm(ws: seq<Word32>)
    ensures Fold(ZERO, ws).c == Wrap64(TriangleWeighted(ws))
    ensures Fold(ZERO, ws).d == Wrap64(TetrahedronWeighted(ws))
  {
    hide TriangleWeighted, TetrahedronWeighted, Total, Weighted;
    Empties();
    if ws != [] {
      var front, last := ws[..|ws| - 1], ws[|ws| - 1];
      assert ws == front + [last];
      HigherClosedForm(front);
      ClosedForm(ws);
      HigherSumsSnoc(front, last);
      Add64Wraps(TriangleWeighted(front), Weighted(ws));
      Add64Wraps(TetrahedronWeighted(front), TriangleWeighted(ws));
      assert Fold(ZERO, ws) == AddWord(Fold(ZERO, front), last);
    }
  }

  lemma Empties()
    ensures TriangleWeighted([]) == 0 && TetrahedronWeighted([]) == 0
  {
  }

  /** All four accumulators, over the numbers that the bytes spell, in either byte order. */
  lemma ChecksumOfNumbers(ws: seq<Word32>, swap: bool)
    ensures |Spelled(ws, swap)| % 4 == 0
    ensures Sum(ZERO, Spelled(ws, swap), swap) == Fletcher4(
      Wrap64(Total(ws)), Wrap64(Weighted(ws)), Wrap64(TriangleWeighted(ws)), Wrap64(TetrahedronWeighted(ws)))
  {
    hide TriangleWeighted, TetrahedronWeighted, Total, Weighted;
    WordsSpelled(ws, swap);
    ClosedForm(ws);
    HigherClosedForm(ws);
  }

  /** The bytes of these words, one after the other. */
  function Spelled(ws: seq<Word32>, swap: bool): (s: seq<Byte>)
    ensures |s| == 4 * |ws|
  {
    if ws == [] then [] else Spelled(ws[..|ws| - 1], swap) + NumBytes(ws[|ws| - 1], 4, swap)
  }

  lemma {:induction false} WordsSpelled(ws: seq<Word32>, swap: bool)
    ensures Words(Spelled(ws, swap), swap) == ws
  {
    if ws != [] {
      var front, last := ws[..|ws| - 1], ws[|ws| - 1];
      WordsSpelled(front, swap);
      var bytes := NumBytes(last, 4, swap);
      WordsConcat(Spelled(front, swap), bytes, swap);
      Limits();
      NumReads(last, 4, swap);
      assert bytes[0..4] == bytes;
      assert Words(bytes, swap) == [last];
      assert ws == front + [last];
    }
  }

  lemma {:induction false} SumsUpdate(ws: seq<Word32>, i: nat, w: Word32)
    requires i < |ws|
    ensures Total(ws[i := w]) == Total(ws) + (w - ws[i])
    ensures Weighted(ws[i := w]) == Weighted(ws) + (|ws| - i) * (w - ws[i])
  {
    if i == 0 {
      assert ws[0 := w][1..] == ws[1..];
      assert |ws| * w == |ws| * ws[0] + |ws| * (w - ws[0]);
    } else {
      assert ws[i := w][1..] == ws[1..][i - 1 := w];
      SumsUpdate(ws[1..], i - 1, w);
    }
  }

  /** `vs` is `ws` with the words at `i` and `j` replaced, at least one of them by something else. */
  ghost predicate OneOrTwoWordsDiffer(ws: seq<Word32>, vs: seq<Word32>, i: nat, j: nat) {
    && |ws| == |vs|
    && i < |ws| && j < |ws|
    && ws[i] != vs[i]
    && (forall k :: 0 <= k < |ws| && k != i && k != j ==> ws[k] == vs[k])
  }

  /** Two words with opposite errors, too close for their weights to wrap, still move `b`. */
  lemma WeightedErrorSurvives(e: int, gap: int)
    requires e != 0 && -U32 < e < U32
    requires gap != 0 && -U32 < gap < U32
    ensures Wrap64(gap * e) != 0
  {
    var g, x := if gap < 0 then -gap else gap, if e < 0 then -e else e;
    assert gap * e == g * x || gap * e == -(g * x);
    ProductBound(g, x);
    NotMultiple(g * x);
    NotMultiple(-(g * x));
  }

  lemma ProductBound(g: int, x: int)
    requires 1 <= g < U32 && 1 <= x < U32
    ensures 1 <= g * x < U64
  {
    ProductMonotone(g, x, U32 - 1, U32 - 1);
  }

  lemma ProductMonotone(g: int, x: int, m: int, n: int)
    requires 1 <= g <= m && 1 <= x <= n
    ensures 1 <= g * x <= m * n
  {
    assert g * x <= m * x <= m * n;
  }

  lemma NotMultiple(y: int)
    requires 0 < y < U64 || -U64 < y < 0
    ensures Wrap64(y) != 0
  {
  }

  lemma SameWrapDifference(x: int, y: int)
    requires Wrap64(x) == Wrap64(y)
    ensures Wrap64(x - y) == 0
  {
  }

  /** fletcher4 tells apart any two word sequences that differ in one word, or in two words
      less than 2^32 positions apart. */
  lemma DetectsTwoWords(ws: seq<Word32>, vs: seq<Word32>, i: nat, j: nat)
    requires OneOrTwoWordsDiffer(ws, vs, i, j)
    requires -U32 < i - j < U32
    ensures Fold(ZERO, ws) != Fold(ZERO, vs)
  {
    hide Fold, Total, Weighted, Wrap64;
    if Fold(ZERO, ws) == Fold(ZERO, vs) {
      SameFoldSameSums(ws, vs);
      var e, e' := TwoWordErrors(ws, vs, i, j);
      ErrorsShow(e, e', |ws|, i, j);
      assert false;
    }
  }

  lemma SameFoldSameSums(ws: seq<Word32>, vs: seq<Word32>)
    requires Fold(ZERO, ws) == Fold(ZERO, vs)
    ensures Wrap64(Total(vs) - Total(ws)) == 0
    ensures Wrap64(Weighted(vs) - Weighted(ws)) == 0
  {
    hide Fold, Total, Weighted;
    ClosedForm(ws);
    ClosedForm(vs);
    SameWrapDifference(Total(vs), Total(ws));
    SameWrapDifference(Weighted(vs), Weighted(ws));
  }

  /** Errors that cancel in the plain sum do not cancel in the weighted one. */
  lemma ErrorsShow(e: int, e': int, n: int, i: int, j: int)
    requires e != 0 && -U32 < e < U32 && -U32 < e' < U32
    requires i == j ==> e' == 0
    requires -U32 < i - j < U32
    ensures Wrap64(e + e') != 0 || Wrap64((n - i) * e + (n - j) * e') != 0
  {
    if Wrap64(e + e') == 0 {
      SmallMultiple(e + e');
      OppositeErrors(n, i, j, e);
      WeightedErrorSurvives(e, j - i);
    }
  }

  /** How replacing the words at `i` and `j` moves the two sums. */
  lemma TwoWordErrors(ws: seq<Word32>, vs: seq<Word32>, i: nat, j: nat) returns (e: int, e': int)
    requires OneOrTwoWordsDiffer(ws, vs, i, j)
    ensures e != 0 && -U32 < e < U32 && -U32 < e' < U32
    ensures i == j ==> e' == 0
    ensures Total(vs) - Total(ws) == e + e'
    ensures Weighted(vs) - Weighted(ws) == (|ws| - i) * e + (|ws| - j) * e'
  {
    var us := ws[i := vs[i]];
    var x: int, x': int, y: int, y': int := ws[i], vs[i], us[j], vs[j];
    e, e' := x' - x, y' - y;
    SumsUpdate(ws, i, vs[i]);
    SumsUpdate(us, j, vs[j]);
    assert vs == us[j := vs[j]];
  }

  lemma OppositeErrors(n: int, i: int, j: int, e: int)
    ensures (n - i) * e + (n - j) * -e == (j - i) * e
  {
  }

  lemma SmallMultiple(y: int)
    requires Wrap64(y) == 0 && -U64 < y < U64
    ensures y == 0
  {
  }
}
