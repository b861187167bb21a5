/** The chain-relay rule: which chain the player at seat `p` works on in
    round `r` of a game with `n` seats.  The server computes it with
    JavaScript's `%`, which truncates toward zero, so the model writes that
    operator out and relates it to Dafny's Euclidean `%`. */
module Rotation {

  /** JavaScript's `a % n` for a positive divisor: the remainder takes the
      sign of the dividend. */
  function JsRem(a: int, n: int): (r: int)
    requires n > 0
    ensures -n < r < n
    ensures a >= 0 ==> r >= 0
    ensures a < 0 ==> r <= 0
  {
    if a >= 0 then a % n else -((-a) % n)
  }

  /** `getChainForPlayer`: `((pIdx - 1 - round) % N + N) % N` with JavaScript's `%`. */
  function ChainFor(n: int, p: int, r: int): (c: int)
    requires n > 0
    ensures 0 <= c < n
  {
    JsRem(JsRem(p - 1 - r, n) + n, n)
  }

  /** No non-zero multiple of `n` lies strictly between `-n` and `n`. */
  lemma MultipleInRange(n: int, k: int)
    requires n > 0
    requires -n < k * n < n
    ensures k == 0
  {
  }

  /** Euclidean remainders are unique: `a == k * n + m` with `0 <= m < n` fixes `a % n`. */
  lemma ModUnique(a: int, n: int, k: int, m: int)
    requires n > 0 && 0 <= m < n
    requires a == k * n + m
    ensures a % n == m
  {
    var q := a / n;
    assert a == q * n + a % n;
    assert (k - q) * n == a % n - m;
    MultipleInRange(n, k - q);
  }

  /** Two numbers with the same Euclidean remainder differ by a multiple of `n`. */
  lemma SameRemainder(a: int, b: int, n: int)
    requires n > 0
    requires a % n == b % n
    ensures (a - b) == (a / n - b / n) * n
  {
    assert a == (a / n) * n + a % n;
    assert b == (b / n) * n + b % n;
    assert (a / n - b / n) * n == (a / n) * n - (b / n) * n;
  }

  /** The server's double-remainder repair computes the mathematical
      (Euclidean) residue of `p - 1 - r`, for every `p` and `r`. */
  lemma {:induction false} ChainForIsMod(n: int, p: int, r: int)
    requires n > 0
    ensures ChainFor(n, p, r) == (p - 1 - r) % n
    ensures 0 <= ChainFor(n, p, r) < n
  {
    var a := p - 1 - r;
    if a >= 0 {
      var m := a % n;
      assert a == (a / n) * n + m;
      ModUnique(m + n, n, 1, m);
    } else {
      var m := (-a) % n;
      assert -a == ((-a) / n) * n + m;
      if m == 0 {
        ModUnique(n, n, 1, 0);
        ModUnique(a, n, -((-a) / n), 0);
      } else {
        ModUnique(n - m, n, 0, n - m);
        ModUnique(a, n, -((-a) / n) - 1, n - m);
      }
    }
  }

  /** For a fixed round, no two seats are sent to the same chain. */
  lemma {:induction false} ChainForInjective(n: int, p: int, q: int, r: int)
    requires n > 0 && 0 <= p < n && 0 <= q < n
    requires ChainFor(n, p, r) == ChainFor(n, q, r)
    ensures p == q
  {
    ChainForIsMod(n, p, r);
    ChainForIsMod(n, q, r);
    SameRemainder(p - 1 - r, q - 1 - r, n);
    MultipleInRange(n, (p - 1 - r) / n - (q - 1 - r) / n);
  }

  /** The seat that works on chain `c` in round `r`. */
  function SeatFor(n: int, c: int, r: int): (p: int)
    requires n > 0
    ensures 0 <= p < n
  {
    (c + 1 + r) % n
  }

  /** For a fixed round, every chain is worked on by some seat, namely
      `SeatFor(n, c, r)`: together with `ChainForInjective`,
      `p ↦ ChainFor(n, p, r)` is a permutation of `0 .. n-1`. */
  lemma {:induction false} ChainForOnto(n: int, c: int, r: int)
    requires n > 0 && 0 <= c < n
    ensures ChainFor(n, SeatFor(n, c, r), r) == c
  {
    var p := SeatFor(n, c, r);
    assert c + 1 + r == ((c + 1 + r) / n) * n + p;
    ChainForIsMod(n, p, r);
    ModUnique(p - 1 - r, n, -((c + 1 + r) / n), c);
  }

  /** Seat `p` works on chain `c` in round `r` exactly when it is `SeatFor(n, c, r)`. */
  lemma {:induction false} SeatForExactly(n: int, p: int, c: int, r: int)
    requires n > 0 && 0 <= p < n && 0 <= c < n
    ensures ChainFor(n, p, r) == c <==> p == SeatFor(n, c, r)
  {
    ChainForOnto(n, c, r);
    if ChainFor(n, p, r) == c {
      ChainForInjective(n, p, SeatFor(n, c, r), r);
    }
  }

  /** During the `n - 1` rounds of a game a seat never works on its own chain. */
  lemma {:induction false} NeverOwnChain(n: int, p: int, r: int)
    requires n > 0 && 0 <= p < n && 0 <= r < n - 1
    ensures ChainFor(n, p, r) != p
  {
    ChainForIsMod(n, p, r);
    if ChainFor(n, p, r) == p {
      ModUnique(p, n, 0, p);
      SameRemainder(p - 1 - r, p, n);
      MultipleInRange(n, (p - 1 - r) / n - p / n);
    }
  }

  /** During the `n - 1` rounds of a game a seat never returns to a chain. */
  lemma {:induction false} NeverSameChainTwice(n: int, p: int, r1: int, r2: int)
    requires n > 0 && 0 <= r1 < n - 1 && 0 <= r2 < n - 1
    requires ChainFor(n, p, r1) == ChainFor(n, p, r2)
    ensures r1 == r2
  {
    ChainForIsMod(n, p, r1);
    ChainForIsMod(n, p, r2);
    SameRemainder(p - 1 - r1, p - 1 - r2, n);
    MultipleInRange(n, (p - 1 - r1) / n - (p - 1 - r2) / n);
  }

  /** Over the `n - 1` rounds every seat visits every chain but its own: the
      round in which seat `p` works on chain `c` is `(p - 1 - c) mod n`. */
  lemma {:induction false} VisitsEveryOtherChain(n: int, p: int, c: int) returns (r: int)
    requires n > 0 && 0 <= p < n && 0 <= c < n && p != c
    ensures 0 <= r < n - 1 && ChainFor(n, p, r) == c
  {
    r := (p - 1 - c) % n;
    assert p - 1 - c == ((p - 1 - c) / n) * n + r;
    ChainForIsMod(n, p, r);
    ModUnique(p - 1 - r, n, (p - 1 - c) / n, c);
    if r == n - 1 {
      ModUnique(p - c, n, (p - 1 - c) / n + 1, 0);
      if p > c {
        ModUnique(p - c, n, 0, p - c);
      } else {
        ModUnique(p - c, n, -1, p - c + n);
      }
    }
  }
}
