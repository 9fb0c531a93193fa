/** Cohen's kappa of two binary raters (evals/validate_judge.py, `cohen_kappa`), in exact
    arithmetic. */
module Kappa {
  import opened Wrappers

  function Count(xs: seq<bool>): (n: nat)
    ensures n <= |xs|
  {
    if xs == [] then 0 else (if xs[0] then 1 else 0) + Count(xs[1..])
  }

  function Agreements(xs: seq<bool>, ys: seq<bool>): (n: nat)
    requires |xs| == |ys|
    ensures n <= |xs|
  {
    if xs == [] then 0 else (if xs[0] == ys[0] then 1 else 0) + Agreements(xs[1..], ys[1..])
  }

  function Share(part: nat, whole: nat): real
    requires whole > 0
  {
    part as real / whole as real
  }

  /** The agreement expected by chance of raters who say yes with these shares. */
  function ByChance(hp: real, jp: real): real {
    hp * jp + (1.0 - hp) * (1.0 - jp)
  }

  /** `cohen_kappa`; None when the lists differ in length and the first is not empty. */
  function Kappa(human: seq<bool>, judge: seq<bool>): Option<real> {
    var n := |human|;
    if n == 0 then Some(0.0)
    else if |judge| != n then None
    else
      var po := Share(Agreements(human, judge), n);
      var pe := ByChance(Share(Count(human), n), Share(Count(judge), n));
      if pe >= 1.0 then Some(if po == 1.0 then 1.0 else 0.0) else Some((po - pe) / (1.0 - pe))
  }

  predicate Constant(xs: seq<bool>, b: bool) {
    forall i :: 0 <= i < |xs| ==> xs[i] == b
  }

  // --- counting ------------------------------------------------------------------------------

  lemma {:induction false} CountBounds(xs: seq<bool>, ys: seq<bool>)
    requires |xs| == |ys|
    ensures Agreements(xs, ys) >= Count(xs) + Count(ys) - |xs|
    ensures Agreements(xs, ys) >= |xs| - Count(xs) - Count(ys)
    ensures Agreements(xs, ys) == Agreements(ys, xs)
  {
    if xs != [] {
      CountBounds(xs[1..], ys[1..]);
    }
  }

  lemma {:induction false} AgreeEverywhere(xs: seq<bool>, ys: seq<bool>)
    requires |xs| == |ys|
    ensures Agreements(xs, ys) == |xs| <==> xs == ys
  {
    if xs != [] {
      AgreeEverywhere(xs[1..], ys[1..]);
      assert xs == [xs[0]] + xs[1..] && ys == [ys[0]] + ys[1..];
    }
  }

  lemma ConstantCons(xs: seq<bool>, b: bool)
    requires xs != []
    ensures Constant(xs, b) <==> xs[0] == b && Constant(xs[1..], b)
  {
    if xs[0] == b && Constant(xs[1..], b) {
      forall i | 0 <= i < |xs| ensures xs[i] == b {
        if i > 0 { assert xs[1..][i - 1] == b; }
      }
    }
  }

  lemma {:induction false} CountExtremes(xs: seq<bool>)
    ensures Count(xs) == |xs| <==> Constant(xs, true)
    ensures Count(xs) == 0 <==> Constant(xs, false)
  {
    if xs != [] {
      CountExtremes(xs[1..]);
      ConstantCons(xs, true);
      ConstantCons(xs, false);
    }
  }

  // --- arithmetic ------------------------------------------------------------------------------

  lemma ShareBounds(part: nat, whole: nat)
    requires 0 < whole && part <= whole
    ensures 0.0 <= Share(part, whole) <= 1.0
    ensures Share(part, whole) == 1.0 <==> part == whole
    ensures Share(part, whole) == 0.0 <==> part == 0
    ensures Share(part, whole) * whole as real == part as real
  {
  }

  /** Chance agreement is total only for two raters who both always, or both never, say yes. */
  lemma ChanceIsTotal(hp: real, jp: real)
    requires 0.0 <= hp <= 1.0 && 0.0 <= jp <= 1.0
    ensures ByChance(hp, jp) >= 1.0 <==> (hp == 1.0 && jp == 1.0) || (hp == 0.0 && jp == 0.0)
    ensures ByChance(hp, jp) <= 1.0
  {
    assert 1.0 - ByChance(hp, jp) == hp * (1.0 - jp) + (1.0 - hp) * jp;
    Positive(hp, 1.0 - jp);
    Positive(1.0 - hp, jp);
  }

  lemma Positive(x: real, y: real)
    requires x >= 0.0 && y >= 0.0
    ensures x * y >= 0.0 && (x * y == 0.0 <==> x == 0.0 || y == 0.0)
  {
  }

  lemma ChanceBound(po: real, hp: real, jp: real)
    requires 0.0 <= hp <= 1.0 && 0.0 <= jp <= 1.0 && po >= 0.0
    requires po >= hp + jp - 1.0 && po >= 1.0 - hp - jp
    ensures 2.0 * ByChance(hp, jp) <= 1.0 + po
  {
    var x, y := 2.0 * hp - 1.0, 2.0 * jp - 1.0;
    assert 2.0 * ByChance(hp, jp) == 1.0 + x * y;
    assert 2.0 * po >= x + y && 2.0 * po >= -x - y;
    if x >= 0.0 && y >= 0.0 {
      Positive(x, 1.0 - y);
      Positive(1.0 - x, y);
    } else if x <= 0.0 && y <= 0.0 {
      Positive(-x, 1.0 + y);
      Positive(1.0 + x, -y);
    } else if x >= 0.0 {
      Positive(x, -y);
    } else {
      Positive(-x, y);
    }
  }

  lemma Quotient(a: real, d: real)
    requires d > 0.0 && -d <= a <= d
    ensures -1.0 <= a / d <= 1.0 && (a / d == 1.0 <==> a == d)
  {
    var q := a / d;
    assert q * d == a;
    if q > 1.0 { Positive(q - 1.0, d); }
    if q < -1.0 { Positive(-1.0 - q, d); }
  }

  // --- what kappa means --------------------------------------------------------------------------

  /** The guard against a division by zero fires only when both raters are constant and equal; so
      it always answers 1, and its `else` is never taken. */
  lemma GuardMeansUnanimous(human: seq<bool>, judge: seq<bool>)
    requires |human| == |judge| > 0
    ensures var n := |human|;
      (ByChance(Share(Count(human), n), Share(Count(judge), n)) >= 1.0) <==>
        (Constant(human, true) && Constant(judge, true)) || (Constant(human, false) && Constant(judge, false))
    ensures var n := |human|;
      ByChance(Share(Count(human), n), Share(Count(judge), n)) >= 1.0 ==> Share(Agreements(human, judge), n) == 1.0
  {
    var n := |human|;
    ShareBounds(Count(human), n);
    ShareBounds(Count(judge), n);
    ShareBounds(Agreements(human, judge), n);
    ChanceIsTotal(Share(Count(human), n), Share(Count(judge), n));
    CountExtremes(human);
    CountExtremes(judge);
    AgreeEverywhere(human, judge);
    if (Constant(human, true) && Constant(judge, true)) || (Constant(human, false) && Constant(judge, false)) {
      forall i | 0 <= i < n ensures human[i] == judge[i] {
        assert human[i] == human[0] && judge[i] == judge[0];
      }
    }
  }

  /** Kappa lies in [-1, 1], and is 1 exactly when the raters agree everywhere. */
  lemma KappaMeasuresAgreement(human: seq<bool>, judge: seq<bool>)
    requires |human| == |judge| > 0
    ensures Kappa(human, judge).Some?
    ensures -1.0 <= Kappa(human, judge).value <= 1.0
    ensures Kappa(human, judge).value == 1.0 <==> human == judge
  {
    var n := |human|;
    var hp, jp, po := Share(Count(human), n), Share(Count(judge), n), Share(Agreements(human, judge), n);
    var pe := ByChance(hp, jp);
    ShareBounds(Count(human), n);
    ShareBounds(Count(judge), n);
    ShareBounds(Agreements(human, judge), n);
    CountBounds(human, judge);
    AgreeEverywhere(human, judge);
    GuardMeansUnanimous(human, judge);
    if pe < 1.0 {
      SharesAreBound(Agreements(human, judge), Count(human), Count(judge), n);
      ChanceBound(po, hp, jp);
      Quotient(po - pe, 1.0 - pe);
    }
  }

  lemma SharesAreBound(a: nat, h: nat, j: nat, n: nat)
    requires 0 < n && a <= n && h <= n && j <= n && a >= h + j - n && a >= n - h - j
    ensures Share(a, n) >= Share(h, n) + Share(j, n) - 1.0 && Share(a, n) >= 1.0 - Share(h, n) - Share(j, n)
  {
    ShareBounds(a, n);
    ShareBounds(h, n);
    ShareBounds(j, n);
    var w, po, hp, jp := n as real, Share(a, n), Share(h, n), Share(j, n);
    NotNegative(po - hp - jp + 1.0, w, po * w - hp * w - jp * w + w);
    NotNegative(po + hp + jp - 1.0, w, po * w + hp * w + jp * w - w);
  }

  lemma NotNegative(x: real, w: real, product: real)
    requires w > 0.0 && product == x * w && product >= 0.0
    ensures x >= 0.0
  {
    if x < 0.0 { Positive(-x, w); }
  }

  lemma KappaIsSymmetric(human: seq<bool>, judge: seq<bool>)
    requires |human| == |judge|
    ensures Kappa(human, judge) == Kappa(judge, human)
  {
    CountBounds(human, judge);
    if human != [] {
      var n := |human|;
      assert ByChance(Share(Count(human), n), Share(Count(judge), n)) ==
        ByChance(Share(Count(judge), n), Share(Count(human), n));
    }
  }

  // --- kappa over counts --------------------------------------------------------------------------

  lemma {:induction false} CountSnoc(xs: seq<bool>, x: bool, ys: seq<bool>, y: bool)
    requires |xs| == |ys|
    ensures Count(xs + [x]) == Count(xs) + if x then 1 else 0
    ensures Agreements(xs + [x], ys + [y]) == Agreements(xs, ys) + if x == y then 1 else 0
  {
    if xs != [] {
      assert (xs + [x])[1..] == xs[1..] + [x] && (ys + [y])[1..] == ys[1..] + [y];
      CountSnoc(xs[1..], x, ys[1..], y);
    }
  }

  /** The positions of the yes votes, and those at which two raters agree. */
  function Yes(xs: seq<bool>): set<nat> {
    set i: nat | i < |xs| && xs[i]
  }

  function Agreed(xs: seq<bool>, ys: seq<bool>): set<nat>
    requires |xs| == |ys|
  {
    set i: nat | i < |xs| && xs[i] == ys[i]
  }

  lemma YesSnoc(xs: seq<bool>, x: bool)
    ensures |Yes(xs + [x])| == |Yes(xs)| + if x then 1 else 0
  {
    assert Yes(xs + [x]) == Yes(xs) + if x then {|xs|} else {};
  }

  lemma AgreedSnoc(xs: seq<bool>, x: bool, ys: seq<bool>, y: bool)
    requires |xs| == |ys|
    ensures |Agreed(xs + [x], ys + [y])| == |Agreed(xs, ys)| + if x == y then 1 else 0
  {
    assert Agreed(xs + [x], ys + [y]) == Agreed(xs, ys) + if x == y then {|xs|} else {};
  }

  lemma {:induction false} CountsAreSizes(xs: seq<bool>, ys: seq<bool>)
    requires |xs| == |ys|
    ensures Count(xs) == |Yes(xs)| && Agreements(xs, ys) == |Agreed(xs, ys)|
  {
    if xs == [] {
      assert Yes(xs) == {} && Agreed(xs, ys) == {};
    } else {
      var n := |xs| - 1;
      CountsAreSizes(xs[..n], ys[..n]);
      assert xs == xs[..n] + [xs[n]] && ys == ys[..n] + [ys[n]];
      CountSnoc(xs[..n], xs[n], ys[..n], ys[n]);
      YesSnoc(xs[..n], xs[n]);
      AgreedSnoc(xs[..n], xs[n], ys[..n], ys[n]);
    }
  }

  /** Multiplied by the square of their number: the pairs of votes that agree by chance. */
  function ChancePairs(human: seq<bool>, judge: seq<bool>): int
    requires |human| == |judge|
  {
    var n, h, j := |human|, |Yes(human)|, |Yes(judge)|;
    h * j + (n - h) * (n - j)
  }

  lemma ScaledChance(h: nat, j: nat, n: nat)
    requires n > 0
    ensures ByChance(Share(h, n), Share(j, n)) * (n * n) as real == (h * j + (n - h) * (n - j)) as real
  {
    var w, hp, jp := n as real, Share(h, n), Share(j, n);
    assert hp * w == h as real && jp * w == j as real;
    Regrouped(hp, jp, w);
    assert (1.0 - hp) * w == (n - h) as real && (1.0 - jp) * w == (n - j) as real;
    assert (n * n) as real == w * w;
  }

  lemma Regrouped(hp: real, jp: real, w: real)
    ensures ByChance(hp, jp) * (w * w) == (hp * w) * (jp * w) + ((1.0 - hp) * w) * ((1.0 - jp) * w)
  {
    var x, y := hp * jp, (1.0 - hp) * (1.0 - jp);
    assert (hp * w) * (jp * w) == x * (w * w);
    assert ((1.0 - hp) * w) * ((1.0 - jp) * w) == y * (w * w);
  }

  /** Kappa is agreement beyond chance: over n votes with a agreements and c chance pairs it is the
      number k with k (n n - c) = n a - c, unless chance alone agrees everywhere; then it is 1. No
      votes give 0, and lists of different length raise. */
  lemma KappaIsBeyondChance(human: seq<bool>, judge: seq<bool>)
    ensures human == [] ==> Kappa(human, judge) == Some(0.0)
    ensures human != [] ==> (Kappa(human, judge).Some? <==> |judge| == |human|)
    ensures |human| == |judge| > 0 ==>
      Corrected(Kappa(human, judge).value, |human|, |Agreed(human, judge)|, ChancePairs(human, judge))
  {
    if |human| == |judge| > 0 {
      var n := |human|;
      var a, h, j := Agreements(human, judge), Count(human), Count(judge);
      CountsAreSizes(human, judge);
      CountsAreSizes(judge, human);
      GuardMeansUnanimous(human, judge);
      CountsCorrected(n, a, h, j, ChancePairs(human, judge), Kappa(human, judge).value);
    }
  }

  ghost predicate Corrected(k: real, n: nat, a: nat, c: int) {
    k * (n * n - c) as real == (n * a - c) as real && (c == n * n ==> k == 1.0)
  }

  lemma ScaledChanceIs(h: nat, j: nat, n: nat, c: int, pe: real)
    requires n > 0 && h <= n && j <= n && c == h * j + (n - h) * (n - j) && pe == ByChance(Share(h, n), Share(j, n))
    ensures pe <= 1.0 && pe * (n * n) as real == c as real
  {
    ScaledChance(h, j, n);
    ShareBounds(h, n);
    ShareBounds(j, n);
    ChanceIsTotal(Share(h, n), Share(j, n));
  }

  lemma CountsCorrected(n: nat, a: nat, h: nat, j: nat, c: int, k: real)
    requires n > 0 && a <= n && h <= n && j <= n && c == h * j + (n - h) * (n - j)
    requires var po, pe := Share(a, n), ByChance(Share(h, n), Share(j, n));
      && (pe >= 1.0 ==> po == 1.0)
      && k == if pe >= 1.0 then (if po == 1.0 then 1.0 else 0.0) else (po - pe) / (1.0 - pe)
    ensures Corrected(k, n, a, c)
  {
    var pe := ByChance(Share(h, n), Share(j, n));
    ScaledChanceIs(h, j, n, c, pe);
    BeyondChance(n, a, c, pe);
  }

  lemma BeyondChance(n: nat, a: nat, c: int, pe: real)
    requires n > 0 && a <= n && pe <= 1.0 && pe * (n * n) as real == c as real
    requires pe >= 1.0 ==> Share(a, n) == 1.0
    ensures var po := Share(a, n);
      var k := if pe >= 1.0 then (if po == 1.0 then 1.0 else 0.0) else (po - pe) / (1.0 - pe);
      k * (n * n - c) as real == (n * a - c) as real && (c == n * n ==> k == 1.0)
  {
    var w := (n * n) as real;
    var po := Share(a, n);
    assert w > 0.0 && w == n as real * n as real;
    assert po * w == (n * a) as real;
    if pe < 1.0 {
      var k := (po - pe) / (1.0 - pe);
      assert k * (1.0 - pe) == po - pe;
      Scaled(k, pe, po, w);
      Positive(1.0 - pe, w);
    }
  }

  lemma Scaled(k: real, pe: real, po: real, w: real)
    requires k * (1.0 - pe) == po - pe
    ensures k * (w - pe * w) == po * w - pe * w
  {
    assert k * (w - pe * w) == (k * (1.0 - pe)) * w;
  }
}
