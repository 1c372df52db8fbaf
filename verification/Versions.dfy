// Version negotiation: atoi, splitVersion, semverCompare and negotiateVersion of server/server.go.
// Go's int is 64 bits wide here, so a long component wraps around; the order below is that of the
// wrapped components.
module Versions {
  import opened Splitting

  const WORD: int := 0x1_0000_0000_0000_0000
  const HALF: int := 0x8000_0000_0000_0000

  const LEGACY := "legacy/no-handshake"
  const OLDEST := "1.1"
  const NEWEST := "1.10"

  // ---------------------------------------------------------------------------------------------
  // atoi
  // ---------------------------------------------------------------------------------------------

  // The value of a 64-bit signed integer whose low bits are those of x.
  function Wrap(x: int): (w: int)
    ensures -HALF <= w < HALF
  {
    (x + HALF) % WORD - HALF
  }

  predicate IsDigit(c: char) {
    '0' <= c <= '9'
  }

  // The leading digits of s.
  function Lead(s: string): (d: string)
    ensures |d| <= |s| && s[..|d|] == d && forall i | 0 <= i < |d| :: IsDigit(d[i])
    ensures |d| < |s| ==> !IsDigit(s[|d|])
  {
    if s == [] || !IsDigit(s[0]) then [] else [s[0]] + Lead(s[1..])
  }

  // The number written by a string of digits.
  function Value(d: string): nat
    requires forall i | 0 <= i < |d| :: IsDigit(d[i])
  {
    if d == [] then 0 else
    assert IsDigit(d[|d| - 1]);
    Value(d[..|d| - 1]) * 10 + (d[|d| - 1] - '0') as nat
  }

  function Component(s: string): int {
    Wrap(Value(Lead(s)))
  }

  lemma WrapShift(x: int, k: int)
    ensures Wrap(x + k * WORD) == Wrap(x)
  {
    var y := x + HALF;
    var q := y / WORD;
    assert y == q * WORD + y % WORD;
    assert y + k * WORD == (q + k) * WORD + y % WORD;
  }

  // One wrapped step of the loop is the wrapped step of the exact loop.
  lemma {:induction false} WrapStep(x: int, d: int)
    ensures Wrap(Wrap(x) * 10 + d) == Wrap(x * 10 + d)
  {
    var k := (x + HALF) / WORD;
    assert Wrap(x) == x - k * WORD;
    WrapShift(x * 10 + d, -10 * k);
  }

  method Atoi(s: string) returns (n: int)
    ensures n == Component(s)
  {
    n := 0;
    var i := 0;
    while i < |s|
      invariant i <= |Lead(s)| && n == Wrap(Value(s[..i]))
    {
      if s[i] < '0' || s[i] > '9' {
        break;
      }
      assert i < |Lead(s)| && Lead(s)[i] == s[i];
      assert s[..i + 1][..i] == s[..i];
      WrapStep(Value(s[..i]), (s[i] - '0') as int);
      n := Wrap(n * 10 + (s[i] - '0') as int);
      i := i + 1;
    }
    assert i == |Lead(s)|;
  }

  lemma {:induction false} ValueBound(d: string, n: nat)
    requires |d| <= n <= 18 && forall i | 0 <= i < |d| :: IsDigit(d[i])
    ensures Value(d) < Power10(n)
  {
    if d != [] {
      ValueBound(d[..|d| - 1], n - 1);
    } else {
      PowerPositive(n);
    }
  }

  function Power10(n: nat): nat {
    if n == 0 then 1 else 10 * Power10(n - 1)
  }

  lemma PowerPositive(n: nat)
    ensures Power10(n) >= 1
  {
  }

  // atoi is exact exactly when the number fits, in particular with up to 18 leading digits.
  lemma AtoiExact(s: string)
    ensures Component(s) == Value(Lead(s)) <==> Value(Lead(s)) < HALF
    ensures |Lead(s)| <= 18 ==> Component(s) == Value(Lead(s))
  {
    if |Lead(s)| <= 18 {
      ValueBound(Lead(s), 18);
      assert Power10(18) < HALF by {
        assert Power10(6) == 1_000_000;
        assert Power10(12) == 1_000_000_000_000;
      }
    }
  }

  // ---------------------------------------------------------------------------------------------
  // splitVersion
  // ---------------------------------------------------------------------------------------------

  function Components(f: seq<string>): (c: seq<int>)
    ensures |c| == |f| && forall i | 0 <= i < |f| :: c[i] == Component(f[i])
  {
    if f == [] then [] else [Component(f[0])] + Components(f[1..])
  }

  function Parts(v: string): (p: seq<int>)
    ensures p != []
  {
    Components(Fields(v, '.'))
  }

  // The fields of a string, given a prefix of its first field.
  function FieldsFrom(head: string, v: string): (f: seq<string>)
    ensures f != []
  {
    [head + Fields(v, '.')[0]] + Fields(v, '.')[1..]
  }

  lemma FieldsStep(head: string, v: string)
    ensures v == [] ==> FieldsFrom(head, v) == [head]
    ensures v != [] && v[0] == '.' ==> FieldsFrom(head, v) == [head] + FieldsFrom([], v[1..])
    ensures v != [] && v[0] != '.' ==> FieldsFrom(head, v) == FieldsFrom(head + [v[0]], v[1..])
  {
    if v != [] {
      var rest := Fields(v[1..], '.');
      assert [] + rest[0] == rest[0];
      assert [rest[0]] + rest[1..] == rest;
      if v[0] == '.' {
        var all: seq<string> := [[]] + rest;
        assert Fields(v, '.') == all && all[0] == [] && all[1..] == rest;
        assert head + all[0] == head;
      } else {
        assert head + ([v[0]] + rest[0]) == head + [v[0]] + rest[0];
      }
    } else {
      assert head + [] == head;
    }
  }

  // What is still to be put out, with head read of the current field and v ahead.
  function Ahead(head: string, v: string): seq<int>
    decreases |v|
  {
    if v == [] then [Component(head)]
    else if v[0] == '.' then [Component(head)] + Ahead([], v[1..])
    else Ahead(head + [v[0]], v[1..])
  }

  lemma {:induction false} AheadIsComponents(head: string, v: string)
    ensures Ahead(head, v) == Components(FieldsFrom(head, v))
    decreases |v|
  {
    FieldsStep(head, v);
    if v != [] && v[0] == '.' {
      AheadIsComponents([], v[1..]);
      assert ([head] + FieldsFrom([], v[1..]))[1..] == FieldsFrom([], v[1..]);
    } else if v != [] {
      AheadIsComponents(head + [v[0]], v[1..]);
    }
  }

  lemma AheadOfAll(v: string)
    ensures Ahead([], v) == Parts(v)
  {
    AheadIsComponents([], v);
    var f := Fields(v, '.');
    assert [] + f[0] == f[0];
    assert [f[0]] + f[1..] == f;
  }

  lemma AheadStep(v: string, start: nat, i: nat)
    requires start <= i < |v|
    ensures v[i] == '.' ==> Ahead(v[start..i], v[i..]) == [Component(v[start..i])] + Ahead(v[i + 1..i + 1], v[i + 1..])
    ensures v[i] != '.' ==> Ahead(v[start..i], v[i..]) == Ahead(v[start..i + 1], v[i + 1..])
  {
    assert v[i..][1..] == v[i + 1..];
    assert v[start..i + 1] == v[start..i] + [v[i]];
    assert v[i + 1..i + 1] == [];
  }

  lemma AheadEnds(v: string, start: nat)
    requires start <= |v|
    ensures v[start..|v|] == v[start..]
    ensures Ahead(v[start..|v|], v[|v|..]) == [Component(v[start..])]
    ensures Ahead(v[0..0], v[0..]) == Parts(v)
  {
    AheadOfAll(v);
    assert v[0..0] == [] && v[0..] == v;
  }

  method SplitVersion(v: string) returns (out: seq<int>)
    ensures out == Parts(v)
  {
    out := [];
    var start := 0;
    var i := 0;
    ghost var parts, rest := Parts(v), Parts(v);
    AheadEnds(v, 0);
    while i < |v|
      invariant start <= i <= |v|
      invariant parts == out + rest && rest == Ahead(v[start..i], v[i..])
    {
      AheadStep(v, start, i);
      if v[i] == '.' {
        var n := Atoi(v[start..i]);
        rest := Ahead(v[i + 1..i + 1], v[i + 1..]);
        assert parts == out + ([n] + rest);
        out := out + [n];
        start := i + 1;
      }
      i := i + 1;
    }
    AheadEnds(v, start);
    var n := Atoi(v[start..]);
    out := out + [n];
  }

  // ---------------------------------------------------------------------------------------------
  // semverCompare
  // ---------------------------------------------------------------------------------------------

  // A missing component counts as 0.
  function At(p: seq<int>, i: nat): int {
    if i < |p| then p[i] else 0
  }

  // a comes before b: at the first component where they differ, a has the smaller one.
  ghost predicate Below(a: seq<int>, b: seq<int>) {
    exists i: nat :: At(a, i) < At(b, i) && forall j: nat | j < i :: At(a, j) == At(b, j)
  }

  ghost predicate Same(a: seq<int>, b: seq<int>) {
    forall i: nat :: At(a, i) == At(b, i)
  }

  // The verdict on two lists of components: -1, 0 or 1.
  ghost predicate Verdict(r: int, a: seq<int>, b: seq<int>) {
    && -1 <= r <= 1
    && (r == -1 <==> Below(a, b))
    && (r == 1 <==> Below(b, a))
    && (r == 0 <==> Same(a, b))
  }

  method SemverCompare(a: string, b: string) returns (r: int)
    ensures Verdict(r, Parts(a), Parts(b))
  {
    var partsA := SplitVersion(a);
    var partsB := SplitVersion(b);
    r := CompareParts(partsA, partsB);
  }

  // The loop of semverCompare.
  method CompareParts(partsA: seq<int>, partsB: seq<int>) returns (r: int)
    ensures Verdict(r, partsA, partsB)
  {
    var i := 0;
    while i < |partsA| || i < |partsB|
      invariant forall j: nat | j < i :: At(partsA, j) == At(partsB, j)
      decreases |partsA| + |partsB| - i
    {
      var va, vb := 0, 0;
      if i < |partsA| {
        va := partsA[i];
      }
      if i < |partsB| {
        vb := partsB[i];
      }
      if va < vb {
        FirstIsLess(partsA, partsB, i);
        return -1;
      }
      if va > vb {
        FirstIsLess(partsB, partsA, i);
        return 1;
      }
      i := i + 1;
    }
    AllSame(partsA, partsB);
    return 0;
  }

  lemma FirstIsLess(a: seq<int>, b: seq<int>, i: nat)
    requires At(a, i) < At(b, i) && forall j: nat | j < i :: At(a, j) == At(b, j)
    ensures Below(a, b) && !Below(b, a) && !Same(a, b)
  {
    BelowExcludes(a, b);
  }

  lemma AllSame(a: seq<int>, b: seq<int>)
    requires forall j: nat | j < |a| || j < |b| :: At(a, j) == At(b, j)
    ensures Same(a, b) && !Below(a, b) && !Below(b, a)
  {
  }

  lemma {:induction false} BelowExcludes(a: seq<int>, b: seq<int>)
    requires Below(a, b)
    ensures !Below(b, a) && !Same(a, b)
  {
    var i: nat :| At(a, i) < At(b, i) && forall j: nat | j < i :: At(a, j) == At(b, j);
    forall k: nat | At(b, k) < At(a, k) ensures exists j: nat :: j < k && At(b, j) != At(a, j) {
      assert i < k && At(b, i) != At(a, i);
    }
  }

  lemma {:induction false} BelowTransitive(a: seq<int>, b: seq<int>, c: seq<int>)
    requires (Below(a, b) || Same(a, b)) && (Below(b, c) || Same(b, c))
    ensures Below(a, c) || Same(a, c)
    ensures Below(a, b) || Below(b, c) ==> Below(a, c)
  {
    if Below(a, b) {
      var i: nat :| At(a, i) < At(b, i) && forall j: nat | j < i :: At(a, j) == At(b, j);
      if Below(b, c) {
        var k: nat :| At(b, k) < At(c, k) && forall j: nat | j < k :: At(b, j) == At(c, j);
        var m := if i < k then i else k;
        assert At(a, m) < At(c, m);
      } else {
        assert At(a, i) < At(c, i);
      }
    } else if Below(b, c) {
      var k: nat :| At(b, k) < At(c, k) && forall j: nat | j < k :: At(b, j) == At(c, j);
      assert At(a, k) < At(c, k);
    }
  }

  // The order is total: two versions that are the same in no direction differ at a first component.
  lemma {:induction false} FirstDifference(a: seq<int>, b: seq<int>, n: nat) returns (i: nat)
    requires At(a, n) != At(b, n)
    ensures At(a, i) != At(b, i) && forall j: nat | j < i :: At(a, j) == At(b, j)
  {
    i := n;
    if k: nat :| k < n && At(a, k) != At(b, k) {
      i := FirstDifference(a, b, k);
    }
  }

  lemma {:induction false} BelowTotal(a: seq<int>, b: seq<int>)
    ensures Below(a, b) || Same(a, b) || Below(b, a)
  {
    if !Same(a, b) {
      var n: nat :| At(a, n) != At(b, n);
      var i := FirstDifference(a, b, n);
      assert At(a, i) < At(b, i) || At(b, i) < At(a, i);
    }
  }

  function Trim(p: seq<int>): seq<int> {
    if p != [] && p[|p| - 1] == 0 then Trim(p[..|p| - 1]) else p
  }

  lemma {:induction false} TrimSame(p: seq<int>)
    ensures Same(Trim(p), p) && (Trim(p) == [] || Trim(p)[|Trim(p)| - 1] != 0)
  {
    if p != [] && p[|p| - 1] == 0 {
      TrimSame(p[..|p| - 1]);
      forall i: nat ensures At(p[..|p| - 1], i) == At(p, i) {}
    }
  }

  lemma LastCounts(s: seq<int>, t: seq<int>)
    requires s != [] && s[|s| - 1] != 0 && Same(s, t)
    ensures |s| <= |t|
  {
    assert At(s, |s| - 1) == At(t, |s| - 1);
  }

  // Two versions compare as equal exactly when they agree up to trailing zeros.
  lemma SameUpToZeros(a: seq<int>, b: seq<int>)
    ensures Same(a, b) <==> Trim(a) == Trim(b)
  {
    TrimSame(a);
    TrimSame(b);
    var s, t := Trim(a), Trim(b);
    if Same(a, b) {
      assert Same(s, t);
      if s != [] { LastCounts(s, t); }
      if t != [] { LastCounts(t, s); }
      forall i | 0 <= i < |s| ensures s[i] == t[i] {
        assert At(s, i) == At(t, i);
      }
    }
  }

  // ---------------------------------------------------------------------------------------------
  // negotiateVersion
  // ---------------------------------------------------------------------------------------------

  ghost predicate AtMost(a: string, b: string) {
    !Below(Parts(b), Parts(a))
  }

  // What is negotiated, given the legacy version and the ends of the range.
  ghost function Choice(r: string, legacy: string, oldest: string, newest: string): string {
    if r == "" || Below(Parts(r), Parts(oldest)) then legacy
    else if Below(Parts(newest), Parts(r)) then newest
    else r
  }

  ghost function Negotiated(requested: string): string {
    Choice(requested, LEGACY, OLDEST, NEWEST)
  }

  method NegotiateVersion(requested: string) returns (v: string)
    ensures v == Negotiated(requested)
  {
    if requested == "" {
      return LEGACY;
    }
    var low := SemverCompare(requested, OLDEST);
    if low < 0 {
      return LEGACY;
    }
    var high := SemverCompare(requested, NEWEST);
    if high > 0 {
      return NEWEST;
    }
    return requested;
  }

  lemma SmallComponents()
    ensures Component("1") == 1 && Component("10") == 10
  {
    assert "1"[1..] == [] && "10"[1..] == "0" && "0"[1..] == [];
    assert Lead("1") == "1" && Lead("0") == "0" && Lead("10") == "10";
    assert "1"[..0] == [] && "10"[..1] == "1";
    assert Value("1") == 1 && Value("10") == 10;
  }

  lemma PartsOfPair(a: string, b: string, x: int, y: int)
    requires '.' !in a && '.' !in b && Component(a) == x && Component(b) == y
    ensures Parts(a + "." + b) == [x, y]
  {
    OneField(b, '.');
    FirstField(a, b, '.');
    assert a + "." + b == a + ['.'] + b;
  }

  lemma PartsOfOne(a: string)
    requires '.' !in a
    ensures Parts(a) == [Component(a)]
  {
    OneField(a, '.');
  }

  lemma KnownOldest()
    ensures Parts(OLDEST) == [1, 1]
  {
    SmallComponents();
    PartsOfPair("1", "1", 1, 1);
    assert OLDEST == "1" + "." + "1";
  }

  lemma KnownNewest()
    ensures Parts(NEWEST) == [1, 10]
  {
    SmallComponents();
    PartsOfPair("1", "10", 1, 10);
    assert NEWEST == "1" + "." + "10";
  }

  lemma PartsWithoutDigit(v: string)
    requires '.' !in v && (v == "" || !IsDigit(v[0]))
    ensures Parts(v) == [0]
  {
    PartsOfOne(v);
  }

  lemma KnownParts()
    ensures Parts(OLDEST) == [1, 1] && Parts(NEWEST) == [1, 10] && Parts(LEGACY) == [0] && Parts("") == [0]
  {
    KnownOldest();
    KnownNewest();
    PartsWithoutDigit(LEGACY);
    PartsWithoutDigit("");
  }

  // What negotiation relies on.
  ghost predicate Range(legacy: string, oldest: string, newest: string) {
    && Below(Parts(""), Parts(oldest)) && Below(Parts(legacy), Parts(oldest)) && Below(Parts(oldest), Parts(newest))
    && legacy != "" && newest != ""
  }

  lemma KnownRange()
    ensures Range(LEGACY, OLDEST, NEWEST)
  {
    KnownParts();
    assert At([0], 0) < At([1, 1], 0);
    assert At([1, 1], 1) < At([1, 10], 1);
  }

  lemma AtMostThenBelow(a: seq<int>, b: seq<int>, c: seq<int>)
    ensures !Below(b, a) && Below(b, c) ==> Below(a, c)
    ensures Below(a, b) && !Below(c, b) ==> Below(a, c)
    ensures Below(a, c) ==> !Below(c, a)
  {
    BelowTotal(a, b);
    BelowTotal(b, c);
    if (Below(a, b) || Same(a, b)) && (Below(b, c) || Same(b, c)) {
      BelowTransitive(a, b, c);
    }
    if Below(a, c) {
      BelowExcludes(a, c);
    }
  }

  lemma RangeOrder(legacy: string, oldest: string, newest: string)
    requires Range(legacy, oldest, newest)
    ensures AtMost(oldest, newest) && AtMost(newest, newest) && AtMost(legacy, newest)
  {
    BelowExcludes(Parts(oldest), Parts(newest));
    AtMostThenBelow(Parts(newest), Parts(newest), Parts(newest));
    BelowTransitive(Parts(legacy), Parts(oldest), Parts(newest));
    BelowExcludes(Parts(legacy), Parts(newest));
  }

  lemma ChoiceAtMost(r: string, legacy: string, oldest: string, newest: string)
    requires Range(legacy, oldest, newest)
    ensures AtMost(Choice(r, legacy, oldest, newest), newest)
  {
    RangeOrder(legacy, oldest, newest);
  }

  lemma ChoiceKeeps(r: string, legacy: string, oldest: string, newest: string)
    requires Range(legacy, oldest, newest)
    ensures Choice(r, legacy, oldest, newest) == r <==>
        r == legacy || (r != "" && AtMost(oldest, r) && AtMost(r, newest))
  {
    RangeOrder(legacy, oldest, newest);
  }

  lemma ChoiceSettles(r: string, legacy: string, oldest: string, newest: string)
    requires Range(legacy, oldest, newest)
    ensures Choice(Choice(r, legacy, oldest, newest), legacy, oldest, newest) == Choice(r, legacy, oldest, newest)
  {
    RangeOrder(legacy, oldest, newest);
    ChoiceKeeps(r, legacy, oldest, newest);
    ChoiceKeeps(legacy, legacy, oldest, newest);
    ChoiceKeeps(newest, legacy, oldest, newest);
  }

  lemma ChoiceMonotone(a: string, b: string, legacy: string, oldest: string, newest: string)
    requires Range(legacy, oldest, newest) && AtMost(a, b)
    ensures AtMost(Choice(a, legacy, oldest, newest), Choice(b, legacy, oldest, newest))
  {
    var pa, pb, l, o, n := Parts(a), Parts(b), Parts(legacy), Parts(oldest), Parts(newest);
    BelowTransitive(l, o, n);
    BelowExcludes(l, n);
    AtMostThenBelow(l, o, pb);
    AtMostThenBelow(l, l, l);
    AtMostThenBelow(n, n, n);
    AtMostThenBelow(n, pa, pb);
    AtMostThenBelow(pa, pb, o);
    AtMostThenBelow(n, pb, o);
    AtMostThenBelow(n, pa, o);
    AtMostThenBelow(o, o, n);
  }

  // The result is never newer than 1.10, it is the request itself exactly when that lies in the range,
  // and negotiating it again changes nothing.
  lemma {:induction false} NegotiatedExactly(r: string)
    ensures AtMost(Negotiated(r), NEWEST)
    ensures Negotiated(r) == r <==> r == LEGACY || (r != "" && AtMost(OLDEST, r) && AtMost(r, NEWEST))
    ensures Negotiated(Negotiated(r)) == Negotiated(r)
  {
    KnownRange();
    ChoiceAtMost(r, LEGACY, OLDEST, NEWEST);
    ChoiceKeeps(r, LEGACY, OLDEST, NEWEST);
    ChoiceSettles(r, LEGACY, OLDEST, NEWEST);
  }

  // A request that is missing or below 1.1, such as "1.0", gets the legacy version, one above 1.10 gets 1.10, and
  // any other gets what it asks for.
  lemma {:induction false} NegotiatedAs(r: string)
    ensures r == "" || Below(Parts(r), [1, 1]) ==> Negotiated(r) == "legacy/no-handshake"
    ensures Below([1, 10], Parts(r)) ==> Negotiated(r) == "1.10"
    ensures r != "" && !Below(Parts(r), [1, 1]) && !Below([1, 10], Parts(r)) ==> Negotiated(r) == r
  {
    KnownParts();
    if Below([1, 10], Parts(r)) {
      assert At([1, 1], 1) < At([1, 10], 1);
      AtMostThenBelow([1, 1], [1, 10], Parts(r));
      BelowExcludes([1, 1], Parts(r));
      assert At([0], 0) < At([1, 10], 0);
      BelowExcludes([0], [1, 10]);
    }
  }

  lemma OldRequest()
    ensures Negotiated("1.0") == "legacy/no-handshake"
  {
    SmallComponents();
    assert Lead("0") == "0" && Value("0") == 0;
    PartsOfPair("1", "0", 1, 0);
    assert "1.0" == "1" + "." + "0";
    assert At([1, 0], 1) < At([1, 1], 1);
    NegotiatedAs("1.0");
  }

  // A client that asks for no less gets no less.
  lemma {:induction false} NegotiationMonotone(a: string, b: string)
    requires AtMost(a, b)
    ensures AtMost(Negotiated(a), Negotiated(b))
  {
    KnownRange();
    ChoiceMonotone(a, b, LEGACY, OLDEST, NEWEST);
  }
}
