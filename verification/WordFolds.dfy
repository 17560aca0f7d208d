/** Strings of bits read in any arithmetic: a reading is a fold from the most significant bit, and it
    carries over to whatever is done bit by bit, and to the concatenation of strings. */
module WordFolds {
  import opened BitStrings

  function Fold<T>(cons: (bool, T) -> T, rest: T, b: Bitstring): T {
    if |b| == 0 then rest else cons(b[0], Fold(cons, rest, b[1..]))
  }

  lemma {:induction false} FoldAppend<T>(cons: (bool, T) -> T, p: T, a: Bitstring, b: Bitstring)
    ensures Fold(cons, p, a + b) == Fold(cons, Fold(cons, p, b), a)
  {
    if |a| > 0 {
      FoldAppend(cons, p, a[1..], b);
      assert (a + b)[1..] == a[1..] + b;
    } else {
      assert a + b == b;
    }
  }

  ghost predicate Xors<T(!new)>(cons: (bool, T) -> T, xor: (T, T) -> T) {
    forall c, d, p, q :: xor(cons(c, p), cons(d, q)) == cons(c != d, xor(p, q))
  }

  lemma {:induction false} FoldXor<T(!new)>(cons: (bool, T) -> T, xor: (T, T) -> T, p: T, q: T,
                                            a: Bitstring, b: Bitstring)
    requires |a| == |b| && Xors(cons, xor)
    ensures xor(Fold(cons, p, a), Fold(cons, q, b)) == Fold(cons, xor(p, q), XorWords(a, b))
  {
    if |a| > 0 {
      FoldXor(cons, xor, p, q, a[1..], b[1..]);
      assert XorWords(a, b)[1..] == XorWords(a[1..], b[1..]);
    }
  }

  // ---------------------------------------------------------------------------------------
  // The carries of a sum

  predicate Majority(a: bool, b: bool, c: bool) { (a && b) || (c && (a || b)) }

  function Majorities(a: Bitstring, b: Bitstring, c: Bitstring): (m: Bitstring)
    requires |a| == |b| == |c|
    ensures |m| == |a|
  {
    XorWords(AndWords(XorWords(a, c), XorWords(b, c)), c)
  }

  lemma MajoritiesCons(a: Bitstring, b: Bitstring, c: Bitstring)
    requires |a| == |b| == |c| > 0
    ensures Majorities(a, b, c) == [Majority(a[0], b[0], c[0])] + Majorities(a[1..], b[1..], c[1..])
  {
  }

  /** The carries into each bit. */
  function Carries(a: Bitstring, b: Bitstring, k: bool): (c: Bitstring)
    requires |a| == |b|
    ensures |c| == |a|
  {
    if |a| == 0 then [] else [k] + Carries(a[1..], b[1..], Majority(a[0], b[0], k))
  }

  predicate CarryOut(a: Bitstring, b: Bitstring, k: bool)
    requires |a| == |b|
  {
    if |a| == 0 then k else CarryOut(a[1..], b[1..], Majority(a[0], b[0], k))
  }

  lemma XorCons(a: bool, b: bool, s: Bitstring, t: Bitstring, u: Bitstring, v: Bitstring)
    requires |s| == |t| && u == [a] + s && v == [b] + t
    ensures XorWords(u, v) == [a != b] + XorWords(s, t)
  {
  }

  /** A sum is the exclusive-or of its operands and its carries. */
  lemma {:induction false} SumOfCarries(a: Bitstring, b: Bitstring, k: bool)
    requires |a| == |b|
    ensures Sum(a, b, k) == XorWords(XorWords(a, b), Carries(a, b, k))
  {
    if |a| > 0 {
      var m := Majority(a[0], b[0], k);
      SumOfCarries(a[1..], b[1..], m);
      XorCons(a[0], b[0], a[1..], b[1..], a, b);
      XorCons(a[0] != b[0], k, XorWords(a[1..], b[1..]), Carries(a[1..], b[1..], m), XorWords(a, b), Carries(a, b, k));
    }
  }

  /** The carries are the majorities, one bit up. */
  lemma {:induction false} CarriesShift(a: Bitstring, b: Bitstring, k: bool)
    requires |a| == |b|
    ensures Carries(a, b, k) + [CarryOut(a, b, k)] == [k] + Majorities(a, b, Carries(a, b, k))
  {
    if |a| > 0 {
      var m := Majority(a[0], b[0], k);
      CarriesShift(a[1..], b[1..], m);
      var c := Carries(a[1..], b[1..], m);
      MajoritiesCons(a, b, Carries(a, b, k));
      assert Carries(a, b, k)[1..] == c;
      assert ([k] + c) + [CarryOut(a, b, k)] == [k] + (c + [CarryOut(a, b, k)]);
    }
  }

  predicate Both(a: bool, b: bool) { a && b }

  ghost predicate Ands<T(!new)>(cons: (bool, T) -> T, and: (T, T) -> T) {
    forall c, d, p, q :: and(cons(c, p), cons(d, q)) == cons(Both(c, d), and(p, q))
  }

  lemma {:induction false} FoldAnd<T(!new)>(cons: (bool, T) -> T, and: (T, T) -> T, p: T, q: T,
                                            a: Bitstring, b: Bitstring)
    requires |a| == |b| && Ands(cons, and)
    ensures and(Fold(cons, p, a), Fold(cons, q, b)) == Fold(cons, and(p, q), AndWords(a, b))
  {
    if |a| > 0 {
      FoldAnd(cons, and, p, q, a[1..], b[1..]);
      assert AndWords(a, b)[0] == Both(a[0], b[0]);
      assert AndWords(a, b)[1..] == AndWords(a[1..], b[1..]);
    }
  }
}
