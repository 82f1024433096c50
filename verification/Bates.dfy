// packages/production/src/bates.ts: Bates numbers and their allocation.
module Bates {
  import opened Wrappers
  import opened Text

  datatype Config = Config(prefix: string, suffix: string, digits: nat, perPage: bool)

  datatype Error = NotPositive | Overflow | WrongPrefix | WrongSuffix | WrongWidth | NotDigits

  function FormatBates(c: Config, n: int): Result<string, Error> {
    if n < 1 then Err(NotPositive)
    else if |ShowNat(n)| > c.digits then Err(Overflow)
    else Ok(c.prefix + PadStart(ShowNat(n), c.digits) + c.suffix)
  }

  predicate EndsWith(s: string, suffix: string) {
    |suffix| <= |s| && s[|s| - |suffix|..] == suffix
  }

  // s.slice(from, to)
  function Slice(s: string, from: nat, to: nat): string
    requires to <= |s|
  {
    if from <= to then s[from..to] else ""
  }

  function ParseBates(c: Config, s: string): Result<nat, Error> {
    if !BeginsWith(s, c.prefix) then Err(WrongPrefix)
    else if c.suffix != "" && !EndsWith(s, c.suffix) then Err(WrongSuffix)
    else
      var middle := Slice(s, |c.prefix|, |s| - |c.suffix|);
      if |middle| != c.digits then Err(WrongWidth)
      else if middle == "" || !AllDigits(middle) then Err(NotDigits)
      else if ParseNat(middle) < 1 then Err(NotPositive)
      else Ok(ParseNat(middle))
  }

  // A number fits its width exactly when it is below that power of ten.
  lemma FormatsExactly(c: Config, n: int)
    ensures FormatBates(c, n).Ok? <==> 1 <= n < Pow10(c.digits)
  {
    if n >= 1 {
      if c.digits > 0 { ShowFits(n, c.digits); }
    }
  }

  lemma ParseOfFormat(c: Config, n: int)
    requires FormatBates(c, n).Ok?
    ensures ParseBates(c, FormatBates(c, n).value) == Ok(n)
  {
    var p := PadStart(ShowNat(n), c.digits);
    var s := FormatBates(c, n).value;
    assert s == c.prefix + (p + c.suffix);
    assert s[|c.prefix|..|s| - |c.suffix|] == p;
    assert s[|s| - |c.suffix|..] == c.suffix;
    ParsePad(n, c.digits);
  }

  lemma FormatOfParse(c: Config, s: string)
    requires ParseBates(c, s).Ok?
    ensures FormatBates(c, ParseBates(c, s).value) == Ok(s)
  {
    var middle := s[|c.prefix|..|s| - |c.suffix|];
    var n := ParseBates(c, s).value;
    ParseBound(middle);
    ShowFits(n, c.digits);
    ParsePad(n, c.digits);
    DigitsInjective(middle, PadStart(ShowNat(n), c.digits));
    assert s == s[..|c.prefix|] + middle + s[|s| - |c.suffix|..];
    assert c.suffix == "" ==> s[|s| - |c.suffix|..] == "";
  }

  // ----- string order -----

  lemma {:induction false} SamePrefix(p: string, a: string, b: string)
    ensures AtMost(p + a, p + b) <==> AtMost(a, b)
  {
    if p == "" {
      assert p + a == a && p + b == b;
    } else {
      SamePrefix(p[1..], a, b);
      assert (p + a)[1..] == p[1..] + a && (p + b)[1..] == p[1..] + b;
    }
  }

  lemma {:induction false} SameSuffix(a: string, b: string, s: string)
    requires |a| == |b|
    ensures AtMost(a + s, b + s) <==> AtMost(a, b)
  {
    if a == "" {
      assert a + s == s && b + s == s;
      AtMostTotal(s, s);
      AtMostTotal(a, b);
    } else {
      SameSuffix(a[1..], b[1..], s);
      assert (a + s)[1..] == a[1..] + s && (b + s)[1..] == b[1..] + s;
    }
  }

  // Sorting the strings sorts the numbers.
  lemma StringOrderIsNumeric(c: Config, m: int, n: int)
    requires FormatBates(c, m).Ok? && FormatBates(c, n).Ok?
    ensures AtMost(FormatBates(c, m).value, FormatBates(c, n).value) <==> m <= n
  {
    var p, q := PadStart(ShowNat(m), c.digits), PadStart(ShowNat(n), c.digits);
    ParsePad(m, c.digits);
    ParsePad(n, c.digits);
    SamePrefix(c.prefix, p + c.suffix, q + c.suffix);
    SameSuffix(p, q, c.suffix);
    DigitsOrder(p, q);
    assert c.prefix + p + c.suffix == c.prefix + (p + c.suffix);
    assert c.prefix + q + c.suffix == c.prefix + (q + c.suffix);
  }

  // ----- allocation -----

  datatype Range = Range(begBates: string, endBates: string, numbersUsed: nat)

  // nextDocument on a counter at `next`: the answer and where the counter then stands.
  function Allocate(c: Config, next: nat, pageCount: int): (Result<Range, Error>, nat)
    requires next >= 1
  {
    if pageCount < 1 then (Err(NotPositive), next)
    else
      var used := if c.perPage then pageCount else 1;
      var end := FormatBates(c, next + used - 1);
      var beg := FormatBates(c, next);
      if end.Err? then (Err(end.error), next)
      else if beg.Err? then (Err(beg.error), next)
      else (Ok(Range(beg.value, end.value, used)), next + used)
  }

  class BatesCounter {
    const config: Config
    var next: nat

    // The program throws instead of constructing a counter whose first number does not fit.
    constructor (config: Config, startNumber: nat)
      requires FormatBates(config, startNumber).Ok?
      ensures this.config == config && next == startNumber
    {
      this.config := config;
      next := startNumber;
    }

    method NextDocument(pageCount: int) returns (r: Result<Range, Error>)
      requires next >= 1
      modifies this`next
      ensures (r, next) == Allocate(config, old(next), pageCount)
    {
      if pageCount < 1 { return Err(NotPositive); }
      var numbersUsed := if config.perPage then pageCount else 1;
      var endBates :- FormatBates(config, next + numbersUsed - 1);
      var begBates :- FormatBates(config, next);
      next := next + numbersUsed;
      return Ok(Range(begBates, endBates, numbersUsed));
    }
  }

  // A refused document leaves the counter where it was; an accepted one gets the numbers from there
  // on, all of which fit. It is refused exactly for a page count below 1 or when its last number does
  // not fit.
  lemma AllocationExactly(c: Config, next: nat, pageCount: int)
    requires next >= 1
    ensures var (r, after) := Allocate(c, next, pageCount);
            var used := if c.perPage then pageCount else 1;
            && (r.Ok? <==> pageCount >= 1 && next + used - 1 < Pow10(c.digits))
            && (r.Err? ==> after == next)
            && (r.Ok? ==> after == next + used && Covers(c, r.value, next, after - 1))
  {
    if pageCount >= 1 {
      var used := if c.perPage then pageCount else 1;
      FormatsExactly(c, next + used - 1);
      FormatsExactly(c, next);
      if next + used - 1 < Pow10(c.digits) {
        ParseOfFormat(c, next);
        ParseOfFormat(c, next + used - 1);
      }
    }
  }

  // The ranges a run of calls hands out, refusals in between included.
  function Ranges(c: Config, next: nat, pageCounts: seq<int>): seq<Range>
    requires next >= 1
    decreases |pageCounts|
  {
    if pageCounts == [] then []
    else
      AllocationExactly(c, next, pageCounts[0]);
      var (r, after) := Allocate(c, next, pageCounts[0]);
      (if r.Ok? then [r.value] else []) + Ranges(c, after, pageCounts[1..])
  }

  // Numbers first to last, both included.
  predicate Covers(c: Config, r: Range, first: nat, last: nat) {
    && ParseBates(c, r.begBates) == Ok(first) && ParseBates(c, r.endBates) == Ok(last)
    && last + 1 == first + r.numbersUsed && first <= last
  }

  function First(c: Config, r: Range): nat {
    if ParseBates(c, r.begBates).Ok? then ParseBates(c, r.begBates).value else 0
  }

  function Last(c: Config, r: Range): nat {
    if ParseBates(c, r.endBates).Ok? then ParseBates(c, r.endBates).value else 0
  }

  lemma EndsOf(c: Config, r: Range, a: nat, b: nat)
    requires Covers(c, r, a, b)
    ensures First(c, r) == a && Last(c, r) == b
  {
  }

  // Over any run the ranges follow one another without gap or overlap, from the first number on.
  lemma {:induction false} RangesContiguous(c: Config, next: nat, pageCounts: seq<int>)
    requires next >= 1
    ensures var rs := Ranges(c, next, pageCounts);
            && (forall k :: 0 <= k < |rs| ==> Covers(c, rs[k], First(c, rs[k]), Last(c, rs[k])))
            && (rs != [] ==> First(c, rs[0]) == next)
            && (forall k :: 0 <= k < |rs| - 1 ==> First(c, rs[k + 1]) == Last(c, rs[k]) + 1)
    decreases |pageCounts|
  {
    if pageCounts != [] {
      AllocationExactly(c, next, pageCounts[0]);
      var (r, after) := Allocate(c, next, pageCounts[0]);
      if r.Ok? { EndsOf(c, r.value, next, after - 1); }
      hide Allocate, ParseBates, Covers, First, Last;
      RangesContiguous(c, after, pageCounts[1..]);
      var rest := Ranges(c, after, pageCounts[1..]);
      assert Ranges(c, next, pageCounts) == (if r.Ok? then [r.value] else []) + rest;
    }
  }

  // So no number is handed out twice.
  lemma RangesDisjoint(c: Config, next: nat, pageCounts: seq<int>, i: nat, j: nat)
    requires next >= 1 && i < j < |Ranges(c, next, pageCounts)|
    ensures Last(c, Ranges(c, next, pageCounts)[i]) < First(c, Ranges(c, next, pageCounts)[j])
  {
    RangesContiguous(c, next, pageCounts);
    var rs := Ranges(c, next, pageCounts);
    hide Ranges, First, Last;
    for k := i + 1 to j
      invariant Last(c, rs[i]) < First(c, rs[k])
    {
      assert Covers(c, rs[k], First(c, rs[k]), Last(c, rs[k]));
    }
  }
}
