/** Cell naming, index allocation and the length-prefixed stream behind the template hash. */
module CellId {
  import opened CellTypes
  import opened Decimal

  const MAX_INT32: int := 0x7FFF_FFFF
  const MAX_INDEX_DIGITS: nat := 5
  const HOSTNAME_MAX_LEN: nat := 63

  function Name(pool: string, index: int): string {
    pool + "-" + Text(index)
  }

  function ParseIndex(pool: string, cell: string): Option<int> {
    var prefix := pool + "-";
    if !(prefix <= cell) then None
    else
      var suffix := cell[|prefix|..];
      if suffix == "" || !AllDigits(suffix) then None
      else if ValueOf(suffix) > MAX_INT32 then None
      else Some(ValueOf(suffix))
  }

  /** The last dash splits a name uniquely when only digits follow it. */
  lemma LastDashSplits(p: string, s: string, q: string, t: string)
    requires AllDigits(s) && AllDigits(t)
    requires p + "-" + s == q + "-" + t
    ensures p == q && s == t
  {
    var whole := p + "-" + s;
    assert whole[|p|] == '-' && whole[|q|] == '-';
    if |p| != |q| {
      assert false;
    }
    assert p == whole[..|p|] && q == whole[..|q|];
    assert s == whole[|p| + 1..] && t == whole[|q| + 1..];
  }

  /** A name belongs to a pool and an index exactly when it is that pool's dash-separated
      digits; the value may have been written with leading zeros. */
  lemma ParseSplits(pool: string, stem: string, digits: string)
    requires AllDigits(digits) && digits != ""
    ensures ParseIndex(pool, stem + "-" + digits) ==
            if pool == stem && ValueOf(digits) <= MAX_INT32 then Some(ValueOf(digits)) else None
  {
    var cell := stem + "-" + digits;
    var prefix := pool + "-";
    if pool == stem {
      assert prefix <= cell && cell[|prefix|..] == digits;
    } else if prefix <= cell {
      var suffix := cell[|prefix|..];
      if AllDigits(suffix) {
        assert cell == pool + "-" + suffix;
        LastDashSplits(pool, suffix, stem, digits);
      }
    }
  }

  /** Identity is uniquely decodable: over the int32 range a pool decodes a generated name
      exactly when the name is its own, and gets the index back. A negative index would be
      read by the pool whose name ends in the extra dash, as the index without its sign. */
  lemma NameRoundTrip(pool: string, owner: string, index: int)
    requires -2147483648 <= index <= 2147483647
    ensures ParseIndex(pool, Name(owner, index)) ==
            if index >= 0 then (if pool == owner then Some(index) else None)
            else if pool == owner + "-" && index > -2147483648 then Some(-index) else None
  {
    if index >= 0 {
      OrdinaryName(pool, owner, index);
    } else {
      NegativeName(pool, owner, -index);
    }
  }

  lemma OrdinaryName(pool: string, owner: string, index: nat)
    requires index <= MAX_INT32
    ensures ParseIndex(pool, Name(owner, index)) == if pool == owner then Some(index) else None
  {
    ValueOfDigits(index);
    ParseSplits(pool, owner, Digits(index));
  }

  lemma NegativeName(pool: string, owner: string, index: int)
    requires index > 0
    ensures ParseIndex(pool, Name(owner, -index)) ==
            if pool == owner + "-" && index <= MAX_INT32 then Some(index) else None
  {
    ValueOfDigits(index);
    ParseSplits(pool, owner + "-", Digits(index));
    DashesJoin(owner, Digits(index));
  }

  lemma DashesJoin(owner: string, digits: string)
    ensures owner + "-" + ("-" + digits) == (owner + "-") + "-" + digits
  {
  }

  /** Two cells of any pools never share a name. */
  lemma NamesInjective(p: string, i: int, q: string, j: int)
    requires 0 <= i <= 2147483647 && 0 <= j <= 2147483647
    requires Name(p, i) == Name(q, j)
    ensures p == q && i == j
  {
    NameRoundTrip(p, p, i);
    NameRoundTrip(p, q, j);
  }

  /** A name as the operator writes it. */
  predicate Canonical(pool: string, cell: string) {
    ParseIndex(pool, cell).Some? && cell == Name(pool, ParseIndex(pool, cell).value)
  }

  /** Of the names that decode to an index, the operator's own is the one without a leading zero, and
      the shortest. */
  lemma CanonicalExactly(pool: string, cell: string)
    requires ParseIndex(pool, cell).Some?
    ensures var index := ParseIndex(pool, cell).value;
            && (Canonical(pool, cell) <==> NoLeadingZero(cell[|pool| + 1..]))
            && |Name(pool, index)| <= |cell|
            && (Canonical(pool, cell) <==> |Name(pool, index)| == |cell|)
  {
    var digits := cell[|pool| + 1..];
    assert cell == pool + "-" + digits;
    WrittenBack(digits);
    if Name(pool, ValueOf(digits)) == cell {
      LastDashSplits(pool, Digits(ValueOf(digits)), pool, digits);
    }
  }

  /** Decoding is injective exactly within one length: two names of one index are one name if and only
      if they are equally long. */
  lemma DecodedTwins(pool: string, a: string, b: string)
    requires ParseIndex(pool, a).Some? && ParseIndex(pool, a) == ParseIndex(pool, b)
    ensures a == b <==> |a| == |b|
    ensures Canonical(pool, a) && Canonical(pool, b) ==> a == b
  {
    var s, t := a[|pool| + 1..], b[|pool| + 1..];
    assert a == pool + "-" + s && b == pool + "-" + t;
    LengthDecides(s, t);
  }

  /** Every index has a name that is not the operator's: the same digits behind a zero. */
  lemma PaddedNamesCollide(pool: string, index: nat)
    requires index <= MAX_INT32
    ensures var padded := pool + "-" + ("0" + Digits(index));
            ParseIndex(pool, padded) == Some(index) && !Canonical(pool, padded)
  {
    ValueOfDigits(index);
    PaddedValue(Digits(index));
    ParseSplits(pool, pool, "0" + Digits(index));
    assert |pool + "-" + ("0" + Digits(index))| == |Name(pool, index)| + 1;
  }

  lemma {:induction false} PaddedValue(s: string)
    requires AllDigits(s)
    ensures AllDigits("0" + s) && ValueOf("0" + s) == ValueOf(s)
  {
    if s == "" {
      assert "0" + s == "0" && "0"[..0] == "";
    } else {
      var n := |s| - 1;
      PaddedValue(s[..n]);
      assert ("0" + s)[..|s|] == "0" + s[..n];
    }
  }

  /** The length half of pool validation. */
  predicate FitsHostname(pool: string) {
    |pool| + 1 + MAX_INDEX_DIGITS <= HOSTNAME_MAX_LEN
  }

  /** Validation is exact: it accepts a pool if and only if every cell name with up to five
      index digits fits one DNS label. */
  lemma HostnamesFit(pool: string)
    ensures FitsHostname(pool) <==>
            forall i :: 0 <= i <= 99999 ==> |Name(pool, i)| <= 63
  {
    assert PowerOfTen(0) == 1 && PowerOfTen(1) == 10 && PowerOfTen(2) == 100 && PowerOfTen(3) == 1000 && PowerOfTen(4) == 10000;
    if FitsHostname(pool) {
      forall i | 0 <= i <= 99999 ensures |Name(pool, i)| <= 63 {
        DigitCount(i, MAX_INDEX_DIGITS);
      }
    } else {
      var i := PowerOfTen(MAX_INDEX_DIGITS) - 1;
      assert PowerOfTen(MAX_INDEX_DIGITS) == 10 * PowerOfTen(MAX_INDEX_DIGITS - 1);
      DigitCount(i, MAX_INDEX_DIGITS - 1);
      assert i == 99999 && |Name(pool, i)| > 63;
    }
  }

  // ----- index allocation

  function IndexSet(used: seq<int>): set<int> {
    set u | u in used
  }

  ghost predicate IsLowestFree(used: set<int>, r: int) {
    && 0 <= r
    && r !in used
    && forall j :: 0 <= j < r ==> j in used
  }

  function Below(n: nat): (s: set<int>)
    ensures |s| == n
    ensures forall x :: x in s <==> 0 <= x < n
  {
    if n == 0 then {} else Below(n - 1) + {n - 1}
  }

  lemma SubsetSize<T>(a: set<T>, b: set<T>)
    requires a <= b
    ensures |a| <= |b|
  {
    assert b == a + (b - a);
  }

  lemma SeqSetSize<T>(s: seq<T>)
    ensures |set x | x in s| <= |s|
  {
    if s == [] {
      assert (set x | x in s) == {};
    } else {
      SeqSetSize(s[1..]);
      assert (set x | x in s) == (set x | x in s[1..]) + {s[0]};
    }
  }

  /** Pigeonhole: some index up to the size of the used set is free. */
  function LowestFrom(used: set<int>, from: nat): (r: nat)
    requires forall j :: 0 <= j < from ==> j in used
    ensures IsLowestFree(used, r) && from <= r <= |used|
    decreases |used| - from
  {
    SubsetSize(Below(from), used);
    if from in used then
      assert Below(from + 1) <= used;
      SubsetSize(Below(from + 1), used);
      LowestFrom(used, from + 1)
    else from
  }

  function LowestFree(used: set<int>): (r: nat)
    ensures IsLowestFree(used, r) && r <= |used|
  {
    LowestFrom(used, 0)
  }

  /** The probe starts at zero and stops within one more step than there are used indexes. */
  method LowestFreeIndex(used: seq<int>) returns (r: int)
    ensures r == LowestFree(IndexSet(used))
    ensures 0 <= r <= |used|
  {
    var seen: set<int> := {};
    for k := 0 to |used|
      invariant seen == set u | u in used[..k]
    {
      assert used[..k + 1] == used[..k] + [used[k]];
      seen := seen + {used[k]};
    }
    assert used[..|used|] == used;
    SeqSetSize(used);
    r := 0;
    while r in seen
      invariant 0 <= r <= |seen|
      invariant forall j :: 0 <= j < r ==> j in seen
      decreases |seen| - r
    {
      assert Below(r + 1) <= seen;
      SubsetSize(Below(r + 1), seen);
      r := r + 1;
    }
    assert r == LowestFree(seen);
  }

  // ----- scale-down order

  predicate SortedDown(s: seq<int>) {
    forall i, j :: 0 <= i < j < |s| ==> s[i] >= s[j]
  }

  lemma InsertKeepsOrder(x: int, s: seq<int>, rest: seq<int>)
    requires s != [] && SortedDown(s) && x <= s[0]
    requires SortedDown(rest) && multiset(rest) == multiset(s[1..]) + multiset{x}
    ensures SortedDown([s[0]] + rest) && multiset([s[0]] + rest) == multiset(s) + multiset{x}
  {
    forall k | 0 <= k < |rest| ensures s[0] >= rest[k] {
      assert rest[k] in multiset(rest);
      assert rest[k] == x || rest[k] in s[1..];
    }
    assert s == [s[0]] + s[1..];
  }

  function InsertDown(x: int, s: seq<int>): (r: seq<int>)
    requires SortedDown(s)
    ensures SortedDown(r) && multiset(r) == multiset(s) + multiset{x}
  {
    if s == [] || x >= s[0] then [x] + s
    else
      var rest := InsertDown(x, s[1..]);
      InsertKeepsOrder(x, s, rest);
      [s[0]] + rest
  }

  function SortDown(s: seq<int>): (r: seq<int>)
    ensures SortedDown(r) && multiset(r) == multiset(s)
  {
    if s == [] then []
    else
      assert s == [s[0]] + s[1..];
      InsertDown(s[0], SortDown(s[1..]))
  }

  function HighestIndexes(used: seq<int>, count: int): (r: seq<int>)
    ensures SortedDown(r) && |r| == Max(0, Min(count, |used|))
  {
    var sorted := SortDown(used);
    assert |sorted| == |multiset(sorted)| == |multiset(used)| == |used|;
    sorted[..Max(0, Min(count, |sorted|))]
  }

  /** The indexes chosen are the highest: with those left over they are all that were used, and none
      left over is higher than one chosen. */
  lemma HighestAreHighest(used: seq<int>, count: int) returns (left: seq<int>)
    ensures multiset(HighestIndexes(used, count)) + multiset(left) == multiset(used)
    ensures forall x, y :: x in HighestIndexes(used, count) && y in left ==> x >= y
  {
    var k := |HighestIndexes(used, count)|;
    left := SortDown(used)[k..];
    SortedHalves(SortDown(used), k);
  }

  lemma SortedHalves(s: seq<int>, k: nat)
    requires SortedDown(s) && k <= |s|
    ensures multiset(s[..k]) + multiset(s[k..]) == multiset(s)
    ensures forall x, y :: x in s[..k] && y in s[k..] ==> x >= y
  {
    assert s == s[..k] + s[k..];
  }

  // ----- template hash input

  type byte = x: int | 0 <= x < 256

  const COLON: byte := 58

  function AsBytes(s: string): (r: seq<byte>)
    requires AllDigits(s)
    ensures |r| == |s| && forall i :: 0 <= i < |s| ==> r[i] == s[i] as int
  {
    seq(|s|, i requires 0 <= i < |s| => s[i] as int)
  }

  /** The byte stream fed to the hasher: each part behind its decimal length and a colon. */
  function Stream(parts: seq<seq<byte>>): seq<byte> {
    if parts == [] then []
    else AsBytes(Digits(|parts[0]|)) + [COLON] + parts[0] + Stream(parts[1..])
  }

  lemma HeaderSplits(m: nat, x: seq<byte>, n: nat, y: seq<byte>)
    requires AsBytes(Digits(m)) + [COLON] + x == AsBytes(Digits(n)) + [COLON] + y
    ensures m == n && x == y
  {
    var a, b := AsBytes(Digits(m)), AsBytes(Digits(n));
    var left, right := a + [COLON] + x, b + [COLON] + y;
    assert left[|a|] == COLON && right[|b|] == COLON;
    if |a| != |b| {
      assert false;
    }
    assert a == left[..|a|] && b == right[..|b|];
    assert x == left[|a| + 1..] && y == right[|b| + 1..];
    assert Digits(m) == Digits(n) by {
      forall i | 0 <= i < |a| ensures Digits(m)[i] == Digits(n)[i] {
        assert a[i] == b[i];
      }
    }
    ValueOfDigits(m);
    ValueOfDigits(n);
  }

  /** Different part lists never feed the hasher the same bytes. */
  lemma {:induction false} StreamInjective(a: seq<seq<byte>>, b: seq<seq<byte>>)
    requires Stream(a) == Stream(b)
    ensures a == b
  {
    if a == [] {
    } else if b != [] {
      var x, y := a[0] + Stream(a[1..]), b[0] + Stream(b[1..]);
      assert Stream(a) == AsBytes(Digits(|a[0]|)) + [COLON] + x;
      assert Stream(b) == AsBytes(Digits(|b[0]|)) + [COLON] + y;
      HeaderSplits(|a[0]|, x, |b[0]|, y);
      assert a[0] == x[..|a[0]|] && b[0] == y[..|b[0]|];
      assert Stream(a[1..]) == x[|a[0]|..] && Stream(b[1..]) == y[|b[0]|..];
      StreamInjective(a[1..], b[1..]);
      assert a == [a[0]] + a[1..] && b == [b[0]] + b[1..];
    }
  }
}
