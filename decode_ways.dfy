/**
  * numDecodings (logical_test/main.go): the number of ways to read a string of
  * digits as a sequence of letter codes, where a code is a single digit 1-9 or
  * a two-digit number 10-26. The table-filling loop is proved against Ways, a
  * recurrence over prefixes, and Ways is proved to count the set of all
  * decodings, defined independently of the recurrence.
  */
module DecodeWays {
  import opened Sets

  predicate IsDigits(s: string) {
    forall i :: 0 <= i < |s| ==> '0' <= s[i] <= '9'
  }

  /** Two characters read as a two-digit decimal number. */
  function TwoDigit(tens: char, units: char): int {
    (tens as int - '0' as int) * 10 + (units as int - '0' as int)
  }

  /** A letter code: one character other than '0', or two reading 10 to 26. */
  predicate IsToken(t: string) {
    || (|t| == 1 && t[0] != '0')
    || (|t| == 2 && 10 <= TwoDigit(t[0], t[1]) <= 26)
  }

  /** The string a sequence of tokens spells. */
  function Concat(ts: seq<string>): string
    decreases |ts|
  {
    if ts == [] then [] else Concat(ts[..|ts| - 1]) + ts[|ts| - 1]
  }

  /** `ts` is a decoding of `s`: tokens only, and together they spell `s`. */
  predicate IsDecoding(ts: seq<string>, s: string) {
    Concat(ts) == s && forall i :: 0 <= i < |ts| ==> IsToken(ts[i])
  }

  /** Every sequence of `prefixes` extended with the token `t`. */
  function Extended(prefixes: set<seq<string>>, t: string): set<seq<string>> {
    set ts | ts in prefixes :: ts + [t]
  }

  /** All decodings of `s`, grouped by their last token. */
  function AllDecodings(s: string): set<seq<string>>
    decreases |s|
  {
    var n := |s|;
    if n == 0 then {[]}
    else
      (if s[n - 1] != '0' then Extended(AllDecodings(s[..n - 1]), [s[n - 1]]) else {})
      + (if n >= 2 && 10 <= TwoDigit(s[n - 2], s[n - 1]) <= 26
         then Extended(AllDecodings(s[..n - 2]), [s[n - 2], s[n - 1]]) else {})
  }

  /**
    * The recurrence numDecodings tabulates: a decoding of `s` ends either in
    * its last character, when that is not '0', or in its last two characters,
    * when they read 10 to 26.
    */
  function Ways(s: string): nat
    decreases |s|
  {
    var n := |s|;
    if n == 0 then 1
    else
      (if s[n - 1] != '0' then Ways(s[..n - 1]) else 0)
      + (if n >= 2 && 10 <= TwoDigit(s[n - 2], s[n - 1]) <= 26 then Ways(s[..n - 2]) else 0)
  }

  // ----- Go's int -----

  /**
    * 2^64: the model assumes a 64-bit Go `int` (amd64, arm64). On a 32-bit
    * build Go's `int` is 32 bits wide, which this model does not cover.
    */
  const Modulus: int := 0x1_0000_0000_0000_0000

  /** 2^63: the first count a Go `int` cannot hold. */
  const Int64Limit: int := 0x8000_0000_0000_0000

  /**
    * The value a Go `int` holds when an arithmetic result `x` does not fit:
    * two's complement keeps `x` modulo 2^64, read back in [-2^63, 2^63).
    */
  function Int64(x: int): (r: int)
    ensures -Int64Limit <= r < Int64Limit
    ensures 0 <= x < Int64Limit ==> r == x
    decreases if x >= Int64Limit then x else if x < -Int64Limit then -x else 0
  {
    if x >= Int64Limit then Int64(x - Modulus)
    else if x < -Int64Limit then Int64(x + Modulus)
    else x
  }

  /** 2^64 more is the same `int`. */
  lemma Int64Step(x: int)
    ensures Int64(x + Modulus) == Int64(x)
  {
  }

  /** Any whole number of 2^64 more or less is the same `int`. */
  lemma {:induction false} Int64Shift(x: int, k: int)
    ensures Int64(x + k * Modulus) == Int64(x)
    decreases if k < 0 then -k else k
  {
    if k > 0 {
      Int64Shift(x, k - 1);
      Int64Step(x + (k - 1) * Modulus);
      assert x + k * Modulus == x + (k - 1) * Modulus + Modulus;
    } else if k < 0 {
      Int64Shift(x, k + 1);
      Int64Step(x + k * Modulus);
      assert x + (k + 1) * Modulus == x + k * Modulus + Modulus;
    }
  }

  /** Wrapping differs from the exact value by a whole number of 2^64. */
  lemma {:induction false} Int64Offset(x: int) returns (k: int)
    ensures Int64(x) == x + k * Modulus
    decreases if x >= Int64Limit then x else if x < -Int64Limit then -x else 0
  {
    if x >= Int64Limit {
      var j := Int64Offset(x - Modulus);
      k := j - 1;
    } else if x < -Int64Limit {
      var j := Int64Offset(x + Modulus);
      k := j + 1;
    } else {
      k := 0;
    }
  }

  /** Adding wrapped values and wrapping again is wrapping the exact sum. */
  lemma Int64Add(a: int, b: int)
    ensures Int64(Int64(a) + Int64(b)) == Int64(a + b)
  {
    var ka := Int64Offset(a);
    var kb := Int64Offset(b);
    assert Int64(a) + Int64(b) == (a + b) + (ka + kb) * Modulus;
    Int64Shift(a + b, ka + kb);
  }

  /** `+=` on a Go `int` that holds `exact` wrapped keeps holding the wrapped sum. */
  lemma Accumulate(held: int, exact: int, added: int)
    requires held == Int64(exact)
    ensures Int64(held + Int64(added)) == Int64(exact + added)
  {
    Int64Add(exact, added);
  }

  /**
    * One entry of numDecodings' table: it starts at 0, gains the entry before
    * it when `single` holds and the one two before it when `double` holds,
    * each `+=` an addition on Go's `int`, which wraps.
    */
  function Entry(single: bool, double: bool, prev1: int, prev2: int): int {
    var one := if single then Int64(0 + prev1) else 0;
    if double then Int64(one + prev2) else one
  }

  /** The entry numDecodings leaves at index `k` of its table `dp`. */
  ghost function Table(s: string, k: nat): int
    requires k <= |s|
  {
    if k <= 1 then 1
    else Entry(s[k - 1] != '0', 10 <= TwoDigit(s[k - 2], s[k - 1]) <= 26, Table(s, k - 1), Table(s, k - 2))
  }

  /** The recurrence read on the prefix of length `i`. */
  lemma WaysPrefix(s: string, i: int)
    requires 2 <= i <= |s|
    ensures Ways(s[..i]) ==
      (if s[i - 1] != '0' then Ways(s[..i - 1]) else 0)
      + (if 10 <= TwoDigit(s[i - 2], s[i - 1]) <= 26 then Ways(s[..i - 2]) else 0)
  {
    assert s[..i][..i - 1] == s[..i - 1] && s[..i][..i - 2] == s[..i - 2];
  }

  /**
    * Ways on the prefix of length `k`, read off by index. It is the same
    * number as `Ways(s[..k])` (PrefixWaysIsWays); it exists so that the proof
    * of TableWraps follows indices into `s` instead of unfolding `Ways` on
    * slices of slices, which keeps that proof within the solver's budget.
    */
  ghost function PrefixWays(s: string, k: nat): nat
    requires k <= |s|
  {
    if k <= 1 then (if k == 1 && s[0] == '0' then 0 else 1)
    else
      (if s[k - 1] != '0' then PrefixWays(s, k - 1) else 0)
      + (if 10 <= TwoDigit(s[k - 2], s[k - 1]) <= 26 then PrefixWays(s, k - 2) else 0)
  }

  lemma {:induction false} PrefixWaysIsWays(s: string, k: nat)
    requires k <= |s|
    ensures PrefixWays(s, k) == Ways(s[..k])
  {
    if k == 1 {
      assert s[..1][..0] == s[..0];
    } else if k >= 2 {
      PrefixWaysIsWays(s, k - 1);
      PrefixWaysIsWays(s, k - 2);
      WaysPrefix(s, k);
    }
  }

  /**
    * Wrapping at every `+=` ends where wrapping once does: each entry of
    * numDecodings' table is the number of decodings of that prefix, as a
    * Go `int`.
    */
  lemma {:induction false} TableWraps(s: string, k: nat)
    requires k <= |s| && (|s| > 0 ==> s[0] != '0')
    ensures Table(s, k) == Int64(PrefixWays(s, k))
  {
    if k >= 2 {
      TableWraps(s, k - 1);
      TableWraps(s, k - 2);
      TableStep(s[k - 1] != '0', 10 <= TwoDigit(s[k - 2], s[k - 1]) <= 26,
        Table(s, k - 1), Table(s, k - 2), PrefixWays(s, k - 1), PrefixWays(s, k - 2));
    }
  }

  /** An entry built from wrapped operands is the wrapped exact sum. */
  lemma TableStep(single: bool, double: bool, held1: int, held2: int, exact1: int, exact2: int)
    requires held1 == Int64(exact1) && held2 == Int64(exact2)
    ensures Entry(single, double, held1, held2)
      == Int64((if single then exact1 else 0) + (if double then exact2 else 0))
  {
    if single {
      Accumulate(0, 0, exact1);
    }
    if double {
      Accumulate(if single then Int64(0 + held1) else 0, if single then exact1 else 0, exact2);
    }
  }

  /**
    * numDecodings. 0 for the empty string and for a string starting with '0';
    * otherwise the number of decodings of `s`, as a Go `int`. The loop below
    * keeps its table entries exact and wraps once on return; TableWraps shows
    * that this is the entry Go's table ends with, wrapping at every `+=`. The
    * result is exact below 2^63 and wraps (see ManyOnesOverflow) from 2^63 on.
    */
  method NumDecodings(s: string) returns (count: int)
    requires IsDigits(s)
    ensures s == [] || s[0] == '0' ==> count == 0
    ensures s != [] && s[0] != '0' ==> count == Table(s, |s|)
    ensures s != [] ==> count == Int64(Ways(s)) && Ways(s) == |AllDecodings(s)|
    ensures s != [] && Ways(s) < Int64Limit ==> count == Ways(s)
  {
    if |s| == 0 || s[0] == '0' {
      if |s| > 0 {
        StrandedZero(s, 0);
        WaysCounts(s);
      }
      return 0;
    }
    var n := |s|;
    var dp := new int[n + 1];
    forall k | 0 <= k <= n {
      dp[k] := 0;
    }
    dp[0] := 1;
    dp[1] := 1;
    assert s[..1][..0] == s[..0];
    for i := 2 to n + 1
      invariant forall k :: 0 <= k < i ==> dp[k] == Ways(s[..k])
      invariant forall k :: i <= k <= n ==> dp[k] == 0
    {
      WaysPrefix(s, i);
      if s[i - 1] != '0' {
        dp[i] := dp[i] + dp[i - 1];
      }
      var twoDigit := TwoDigit(s[i - 2], s[i - 1]);
      if twoDigit >= 10 && twoDigit <= 26 {
        dp[i] := dp[i] + dp[i - 2];
      }
    }
    count := Int64(dp[n]);
    assert s[..n] == s;
    TableWraps(s, n);
    PrefixWaysIsWays(s, n);
    WaysCounts(s);
  }

  // ----- the recurrence counts the decodings -----

  lemma {:induction false} ConcatAppend(ts: seq<string>, t: string)
    ensures Concat(ts + [t]) == Concat(ts) + t
  {
    assert (ts + [t])[..|ts|] == ts;
  }

  /** Appending the same token to distinct sequences keeps them distinct. */
  lemma {:induction false} ExtendedSize(prefixes: set<seq<string>>, t: string)
    ensures |Extended(prefixes, t)| == |prefixes|
    decreases |prefixes|
  {
    if prefixes != {} {
      var a := NonEmptyHasMember(prefixes);
      var rest := prefixes - {a};
      ExtendedSize(rest, t);
      assert Extended(prefixes, t) == Extended(rest, t) + {a + [t]};
      forall b | b in rest ensures b + [t] != a + [t] {
        assert (b + [t])[..|b|] == b && (a + [t])[..|a|] == a;
      }
      assert a + [t] !in Extended(rest, t);
    }
  }

  /** A decoding of `p` followed by the token `t` is a decoding of `s`, which is `p + t`. */
  lemma ExtendSound(us: seq<string>, p: string, t: string, s: string)
    requires IsDecoding(us, p) && IsToken(t) && p + t == s
    ensures IsDecoding(us + [t], s)
  {
    ConcatAppend(us, t);
    var ts := us + [t];
    forall i | 0 <= i < |ts| ensures IsToken(ts[i]) {
      if i < |us| {
        assert ts[i] == us[i];
      }
    }
  }

  /** A member of Extended(prefixes, t) is one of the prefixes followed by `t`. */
  lemma ExtendedMember(prefixes: set<seq<string>>, t: string, ts: seq<string>)
    requires ts in Extended(prefixes, t)
    ensures ts != [] && ts[..|ts| - 1] in prefixes && ts == ts[..|ts| - 1] + [t]
  {
    var us :| us in prefixes && ts == us + [t];
    assert ts[..|ts| - 1] == us;
  }

  /**
    * A member of AllDecodings(s), for non-empty `s`, is a member of
    * AllDecodings(p) followed by a token `t`, where `s` is `p + t`.
    */
  lemma LastToken(s: string, ts: seq<string>) returns (p: string, t: string)
    requires s != [] && ts in AllDecodings(s)
    ensures IsToken(t) && p + t == s && |p| < |s|
    ensures ts != [] && ts[..|ts| - 1] in AllDecodings(p) && ts == ts[..|ts| - 1] + [t]
  {
    var n := |s|;
    if s[n - 1] != '0' && ts in Extended(AllDecodings(s[..n - 1]), [s[n - 1]]) {
      p, t := s[..n - 1], [s[n - 1]];
    } else {
      assert n >= 2 && 10 <= TwoDigit(s[n - 2], s[n - 1]) <= 26;
      p, t := s[..n - 2], [s[n - 2], s[n - 1]];
    }
    assert p + t == s;
    ExtendedMember(AllDecodings(p), t, ts);
  }

  /** One member of AllDecodings(s) is a decoding of `s`. */
  lemma {:induction false} MemberSound(s: string, ts: seq<string>)
    requires ts in AllDecodings(s)
    ensures IsDecoding(ts, s)
    decreases |s|
  {
    if s != [] {
      var p, t := LastToken(s, ts);
      var us := ts[..|ts| - 1];
      MemberSound(p, us);
      ExtendSound(us, p, t, s);
    }
  }

  /** Every member of AllDecodings(s) is a decoding of `s`. */
  lemma {:induction false} AllDecodingsSound(s: string)
    ensures forall ts :: ts in AllDecodings(s) ==> IsDecoding(ts, s)
  {
    forall ts | ts in AllDecodings(s) ensures IsDecoding(ts, s) {
      MemberSound(s, ts);
    }
  }

  /** Every decoding of `s` is a member of AllDecodings(s). */
  lemma {:induction false} AllDecodingsComplete(ts: seq<string>, s: string)
    requires IsDecoding(ts, s)
    ensures ts in AllDecodings(s)
    decreases |ts|
  {
    if ts != [] {
      var init, last := ts[..|ts| - 1], ts[|ts| - 1];
      DropLastToken(ts, s);
      AllDecodingsComplete(init, Concat(init));
      AddLastToken(init, last, s);
      assert ts == init + [last];
    }
  }

  /** Without its last token, a decoding decodes what precedes that token. */
  lemma DropLastToken(ts: seq<string>, s: string)
    requires IsDecoding(ts, s) && ts != []
    ensures IsToken(ts[|ts| - 1])
    ensures IsDecoding(ts[..|ts| - 1], Concat(ts[..|ts| - 1]))
    ensures Concat(ts[..|ts| - 1]) + ts[|ts| - 1] == s
  {
    var init := ts[..|ts| - 1];
    assert IsToken(ts[|ts| - 1]);
    forall i | 0 <= i < |init| ensures IsToken(init[i]) {
      assert init[i] == ts[i];
    }
  }

  /** A token after a member of AllDecodings gives a member for the longer string. */
  lemma AddLastToken(init: seq<string>, last: string, s: string)
    requires IsToken(last) && Concat(init) + last == s
    requires init in AllDecodings(Concat(init))
    ensures init + [last] in AllDecodings(s)
  {
    var n, m := |s|, |last|;
    assert Concat(init) == s[..n - m];
    if m == 1 {
      assert last == [s[n - 1]];
      assert init + [last] in Extended(AllDecodings(s[..n - 1]), [s[n - 1]]);
    } else {
      assert last == [s[n - 2], s[n - 1]];
      assert init + [last] in Extended(AllDecodings(s[..n - 2]), [s[n - 2], s[n - 1]]);
    }
  }

  /** Decodings whose last tokens differ in length are different decodings. */
  lemma ExtendedDisjoint(a: set<seq<string>>, x: string, b: set<seq<string>>, y: string)
    requires |x| != |y|
    ensures Extended(a, x) * Extended(b, y) == {}
  {
    forall ts | ts in Extended(a, x) ensures ts !in Extended(b, y) {
      assert ts[|ts| - 1] == x;
    }
  }

  lemma DisjointUnionSize(a: set<seq<string>>, b: set<seq<string>>)
    requires a * b == {}
    ensures |a + b| == |a| + |b|
  {
  }

  /** Ways(s) is the number of decodings of `s`. */
  lemma {:induction false} WaysCounts(s: string)
    ensures Ways(s) == |AllDecodings(s)|
    decreases |s|
  {
    var n := |s|;
    if n > 0 {
      WaysCounts(s[..n - 1]);
      ExtendedSize(AllDecodings(s[..n - 1]), [s[n - 1]]);
      var one := if s[n - 1] != '0' then Extended(AllDecodings(s[..n - 1]), [s[n - 1]]) else {};
      if n >= 2 {
        WaysCounts(s[..n - 2]);
        ExtendedSize(AllDecodings(s[..n - 2]), [s[n - 2], s[n - 1]]);
        ExtendedDisjoint(AllDecodings(s[..n - 1]), [s[n - 1]], AllDecodings(s[..n - 2]), [s[n - 2], s[n - 1]]);
        var two := if 10 <= TwoDigit(s[n - 2], s[n - 1]) <= 26
                   then Extended(AllDecodings(s[..n - 2]), [s[n - 2], s[n - 1]]) else {};
        assert AllDecodings(s) == one + two;
        DisjointUnionSize(one, two);
      } else {
        assert AllDecodings(s) == one;
      }
    }
  }

  // ----- zeros -----

  /**
    * A '0' that does not follow '1' or '2' can be read neither alone nor as
    * the end of a code 10-26, nor as the start of a code: `s` has no decoding.
    * In particular a string starting with '0' has none.
    */
  lemma {:induction false} StrandedZero(s: string, i: nat)
    requires IsDigits(s)
    requires i < |s| && s[i] == '0'
    requires i == 0 || (s[i - 1] != '1' && s[i - 1] != '2')
    ensures Ways(s) == 0
  {
    ZeroAfter(s, i, |s|);
    assert s[..|s|] == s;
  }

  lemma {:induction false} ZeroAfter(s: string, i: nat, j: nat)
    requires IsDigits(s)
    requires i < |s| && s[i] == '0'
    requires i == 0 || (s[i - 1] != '1' && s[i - 1] != '2')
    requires i < j <= |s|
    ensures Ways(s[..j]) == 0
    decreases j
  {
    var p := s[..j];
    assert p[..j - 1] == s[..j - 1];
    if j == i + 1 {
      assert p[j - 1] == '0';
      if j >= 2 {
        assert p[j - 2] == s[i - 1];
      }
    } else if j == i + 2 {
      ZeroAfter(s, i, i + 1);
      assert p[j - 2] == '0' && '0' <= p[j - 1] <= '9';
    } else {
      ZeroAfter(s, i, j - 1);
      ZeroAfter(s, i, j - 2);
      assert p[..j - 2] == s[..j - 2];
    }
  }

  /** A single non-zero digit has exactly one decoding, the digit itself. */
  lemma SingleDigit(c: char)
    requires c != '0'
    ensures [[c]] in AllDecodings([c]) && |AllDecodings([c])| == 1
  {
    assert [c][..0] == [] && [c][0..] == [c];
    assert [] + [[c]] == [[c]];
    ExtendedSize({[]}, [c]);
  }

  // ----- where the count outgrows Go's int -----

  /** A string of `n` ones. */
  function Ones(n: nat): (s: string)
    ensures |s| == n && IsDigits(s)
  {
    seq(n, _ => '1')
  }

  function Fib(n: nat): nat {
    if n <= 1 then n else Fib(n - 1) + Fib(n - 2)
  }

  function Pow2(k: nat): nat {
    if k == 0 then 1 else 2 * Pow2(k - 1)
  }

  /** Ones decode like Fibonacci numbers: a decoding ends in "1" or in "11". */
  lemma OnesStep(n: nat)
    ensures Ways(Ones(n + 2)) == Ways(Ones(n + 1)) + Ways(Ones(n))
  {
    assert Ones(n + 2)[..n + 1] == Ones(n + 1);
    assert Ones(n + 2)[..n] == Ones(n);
  }

  lemma {:induction false} OnesFib(n: nat)
    ensures Ways(Ones(n)) == Fib(n + 1)
  {
    if n == 1 {
      assert Ones(1)[..0] == Ones(0);
    } else if n >= 2 {
      OnesFib(n - 1);
      OnesFib(n - 2);
      OnesStep(n - 2);
    }
  }

  /** Every second Fibonacci number at least doubles. */
  lemma {:induction false} FibDoubling(k: nat)
    ensures Fib(2 * k + 1) >= Pow2(k)
  {
    if k > 0 {
      FibDoubling(k - 1);
      assert Fib(2 * k + 1) == Fib(2 * k) + Fib(2 * k - 1);
      assert Fib(2 * k) >= Fib(2 * k - 1);
    }
  }

  lemma {:induction false} Pow2Add(a: nat, b: nat)
    ensures Pow2(a + b) == Pow2(a) * Pow2(b)
  {
    if a > 0 {
      Pow2Add(a - 1, b);
      assert Pow2(a + b) == 2 * (Pow2(a - 1) * Pow2(b)) == (2 * Pow2(a - 1)) * Pow2(b);
    }
  }

  lemma Pow2Of64()
    ensures Pow2(64) == Modulus
  {
    assert Pow2(1) == 2;
    Pow2Add(1, 1);
    assert Pow2(2) == 4;
    Pow2Add(2, 2);
    assert Pow2(4) == 16;
    Pow2Add(4, 4);
    assert Pow2(8) == 0x100;
    Pow2Add(8, 8);
    assert Pow2(16) == 0x1_0000;
    Pow2Add(16, 16);
    assert Pow2(32) == 0x1_0000_0000;
    Pow2Add(32, 32);
  }

  lemma {:induction false} Pow2Monotone(k: nat)
    requires k >= 64
    ensures Pow2(k) >= Pow2(64)
  {
    if k > 64 {
      Pow2Monotone(k - 1);
    }
  }

  /** From 128 ones on, a string has at least 2^64 decodings. */
  lemma ManyOnes(n: nat)
    requires n >= 128
    ensures Ways(Ones(n)) >= Modulus
  {
    var k := n / 2;
    OnesFib(n);
    FibDoubling(k);
    Pow2Monotone(k);
    Pow2Of64();
    if n == 2 * k + 1 {
      assert Fib(n + 1) == Fib(2 * k + 1) + Fib(2 * k);
    }
  }

  /**
    * numDecodings overflows: from 128 ones on, a string has more decodings
    * than a Go `int` holds, so the count numDecodings returns for it is not
    * its number of decodings.
    */
  lemma ManyOnesOverflow(n: nat)
    requires n >= 128
    ensures Ways(Ones(n)) >= Int64Limit
    ensures Int64(Ways(Ones(n))) != Ways(Ones(n))
  {
    ManyOnes(n);
  }
}
