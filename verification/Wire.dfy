/** Big-endian integers on the wire. */
module Wire {
  import opened Frames

  /** 256 to the power `k`. */
  function Base(k: nat): (r: nat)
    ensures r >= 1
  {
    if k == 0 then 1 else 0x100 * Base(k - 1)
  }

  /** The `k` low bytes of `n`, highest first. */
  function BigEndian(n: nat, k: nat): (r: seq<Byte>)
    ensures |r| == k
  {
    if k == 0 then [] else BigEndian(n / 0x100, k - 1) + [n % 0x100]
  }

  function FromBigEndian(s: seq<Byte>): nat {
    if s == [] then 0 else FromBigEndian(s[..|s| - 1]) * 0x100 + s[|s| - 1]
  }

  lemma {:induction false} ReadsBack(n: nat, k: nat)
    requires n < Base(k)
    ensures FromBigEndian(BigEndian(n, k)) == n
  {
    if k > 0 {
      ReadsBack(n / 0x100, k - 1);
      assert BigEndian(n, k)[..k - 1] == BigEndian(n / 0x100, k - 1);
    }
  }

  lemma {:induction false} WritesBack(s: seq<Byte>)
    ensures FromBigEndian(s) < Base(|s|)
    ensures BigEndian(FromBigEndian(s), |s|) == s
  {
    if s != [] {
      WritesBack(s[..|s| - 1]);
      assert s == s[..|s| - 1] + [s[|s| - 1]];
    }
  }

  /** Reading most significant byte first. */
  lemma {:induction false} HighByteFirst(s: seq<Byte>)
    requires s != []
    ensures FromBigEndian(s) == s[0] * Base(|s| - 1) + FromBigEndian(s[1..])
  {
    if |s| == 1 {
      assert FromBigEndian(s[..0]) == 0 && FromBigEndian(s[1..]) == 0;
    } else {
      var front, last := s[..|s| - 1], s[|s| - 1];
      HighByteFirst(front);
      assert front[1..] == s[1..][..|s| - 2];
      assert FromBigEndian(s[1..]) == FromBigEndian(front[1..]) * 0x100 + last;
      assert 0x100 * (s[0] * Base(|s| - 2)) == s[0] * Base(|s| - 1);
    }
  }

  /** Writing most significant byte first. */
  lemma {:induction false} HighByteWrittenFirst(n: nat, k: nat)
    requires k > 0
    ensures BigEndian(n, k) == [n / Base(k - 1) % 0x100] + BigEndian(n, k - 1)
  {
    if k > 1 {
      HighByteWrittenFirst(n / 0x100, k - 1);
      DivideTwice(n, Base(k - 2));
    }
  }

  lemma DivideTwice(n: nat, b: nat)
    requires b > 0
    ensures n / 0x100 / b == n / (0x100 * b)
  {
    var q := n / 0x100;
    var p, t := q / b, q % b;
    assert q == b * p + t;
    QuotientIs(n, 0x100 * b, p, 0x100 * t + n % 0x100);
  }

  lemma QuotientIs(n: nat, d: nat, q: nat, r: nat)
    requires d > 0 && n == d * q + r && r < d
    ensures n / d == q
  {
    var e := n / d - q;
    assert d * e == r - n % d by {
      assert n == d * (n / d) + n % d;
    }
    if e > 0 {
      ScaledIsLarge(d, e);
    } else if e < 0 {
      ScaledIsLarge(d, -e);
      assert false;
    }
  }

  lemma {:induction false} ScaledIsLarge(d: nat, e: int)
    requires e > 0
    ensures d * e >= d
  {
    if e > 1 {
      ScaledIsLarge(d, e - 1);
      assert d * e == d * (e - 1) + d;
    }
  }

  /** A slice of a slice. */
  lemma SubSlice<T>(s: seq<T>, i: nat, n: nat, j: nat, k: nat)
    requires i + n <= |s| && j <= k <= n
    ensures s[i..i + n][j..k] == s[i + j..i + k]
  {
    var inner, outer := s[i..i + n][j..k], s[i + j..i + k];
    assert forall x | 0 <= x < k - j :: inner[x] == outer[x];
  }
}
