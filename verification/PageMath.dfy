/** Rounding to pages and alignments, and the 64-bit unsigned arithmetic of the allocator. */
module PageMath {
  import opened Numbers

  const U64: nat := 0x1_0000_0000_0000_0000

  /** What the subtraction `a - b` gives on unsigned 64-bit values. */
  function Minus(a: nat, b: nat): (r: nat)
    requires a < U64 && b < U64
    ensures r < U64
    ensures b <= a ==> r == a - b
  {
    (a - b + U64) % U64
  }

  /** The smallest multiple of `n` that is not below `x`. */
  function AlignTo(x: nat, n: nat): (r: nat)
    requires n > 0
    ensures x <= r < x + n && r % n == 0
  {
    var r := (x + n - 1) / n * n;
    MultipleOf((x + n - 1) / n, n);
    r
  }

  lemma MultipleOf(q: nat, n: nat)
    requires n > 0
    ensures (q * n) % n == 0
  {
    DivUnique(q * n, n, q, 0);
  }

  /** Different multiples are at least one apart. */
  lemma MultiplesApart(x: nat, y: nat, n: nat)
    requires n > 0 && x % n == 0 && y % n == 0 && x < y
    ensures x + n <= y
  {
    var a, b := x / n, y / n;
    assert x == n * a && y == n * b;
    assert n * (b - a) == n * b - n * a;
    if b - a >= 1 {
      MulAtLeast(n, b - a);
    } else if b - a <= -1 {
      MulAtLeast(n, b - a);
    }
  }

  lemma SumOfMultiples(x: nat, y: nat, n: nat)
    requires n > 0 && x % n == 0 && y % n == 0
    ensures (x + y) % n == 0
    ensures x <= y ==> (y - x) % n == 0
  {
    var a, b := x / n, y / n;
    assert x == n * a && y == n * b;
    assert n * (a + b) == n * a + n * b && n * (b - a) == n * b - n * a;
    DivUnique(x + y, n, a + b, 0);
    if x <= y {
      DivUnique(y - x, n, b - a, 0);
    }
  }

  /** Rounding up is at most any multiple that is not below. */
  lemma AlignToLeast(x: nat, y: nat, n: nat)
    requires n > 0 && y % n == 0 && x <= y
    ensures AlignTo(x, n) <= y
  {
    if y < AlignTo(x, n) {
      MultiplesApart(y, AlignTo(x, n), n);
    }
  }

  lemma AlignToMultiple(x: nat, n: nat)
    requires n > 0 && x % n == 0
    ensures AlignTo(x, n) == x
  {
    AlignToLeast(x, x, n);
  }

  /** The size that `allocateSection` asks of a free block. */
  function RequiredSize(size: nat, alignment: nat): nat
    requires alignment > 0
  {
    alignment * ((size + alignment - 1) / alignment + 1)
  }

  /** The two formulas for the padded size agree. */
  lemma SizeFormulasAgree(size: nat, alignment: nat)
    requires alignment > 0
    ensures RequiredSize(size, alignment) == AlignTo(size, alignment) + alignment
  {
    var q := (size + alignment - 1) / alignment;
    assert alignment * (q + 1) == q * alignment + alignment;
  }

  /** The same computed on unsigned 64-bit values. */
  function RequiredSizeWrapping(size: nat, alignment: nat): nat
    requires alignment > 0
  {
    (alignment * (((size + alignment - 1) % U64) / alignment + 1)) % U64
  }

  lemma RequiredSizeFits(size: nat, alignment: nat)
    requires alignment > 0 && size + 2 * alignment <= U64
    ensures RequiredSizeWrapping(size, alignment) == RequiredSize(size, alignment)
  {
    SizeFormulasAgree(size, alignment);
    NoWrap(size + alignment - 1);
    NoWrap(RequiredSize(size, alignment));
  }

  lemma NoWrap(x: nat)
    requires x < U64
    ensures x % U64 == x
  {
  }

  /** How far a block's base is below the next page boundary, as `trimBlockToPageSize`
      computes it. */
  function StartOverlap(base: nat, page: nat): (r: nat)
    requires page > 0
    ensures base + r == AlignTo(base, page)
  {
    var r := (page - base % page) % page;
    OverlapReaches(base, page);
    r
  }

  lemma OverlapReaches(base: nat, page: nat)
    requires page > 0
    ensures base + (page - base % page) % page == AlignTo(base, page)
  {
    var q, m := base / page, base % page;
    assert base == page * q + m;
    if m == 0 {
      AlignToMultiple(base, page);
      DivUnique(page, page, 1, 0);
    } else {
      DivUnique(page - m, page, 0, page - m);
      assert base + (page - m) == page * (q + 1);
      DivUnique(page * (q + 1), page, q + 1, 0);
      AlignToLeast(base, base + (page - m), page);
      if AlignTo(base, page) < base + (page - m) {
        MultiplesApart(AlignTo(base, page), base + (page - m), page);
      }
    }
  }
}
