// The numeric path of a port name, `re.findall('([0-9]*/?[0-9]*/?[0-9])+$', p)`
// joined to a string (nx_ifrate.py, in `getcdpnbor` and `getlldpnbor`).
//
// The pattern is one group, repeated greedily and anchored at the end:
// `[0-9]*`, `/?`, `[0-9]*`, `/?`, `[0-9]`. `re.findall` returns what the group
// captured, and a repeated group keeps only its LAST repetition. The model is
// the regex engine's backtracking search for this one pattern, so that capture
// comes out exactly: "Ethernet1/49" gives "1/49", but the fabric-extender port
// "Ethernet101/1/48" gives "8", because the first repetition stops at
// "101/1/4" and a second one takes the "8".
module NumericPath {
  import opened Base

  const Digits := {'0', '1', '2', '3', '4', '5', '6', '7', '8', '9'}

  /** s[i..j] holds only digits and slashes. */
  predicate PathSpan(s: string, i: nat, j: nat)
    requires i <= j <= |s|
  {
    forall k | i <= k < j :: s[k] in Digits || s[k] == '/'
  }

  /** s[i..j] holds only digits. */
  predicate DigitSpan(s: string, i: nat, j: nat)
    requires i <= j <= |s|
  {
    forall k | i <= k < j :: s[k] in Digits
  }

  // The engine's search from position i, in the repetition that began at `start`,
  // with the first k items of the group already matched (0 `[0-9]*`, 1 `/?`,
  // 2 `[0-9]*`, 3 `/?`, 4 `[0-9]`). Greedy items try the longer choice first and
  // fall back to the shorter one; after the last item the group is tried once more
  // before `$` is checked. The result is the start of the last repetition of the
  // first match found, so the capture is s[start..].
  function MatchFrom(s: string, i: nat, k: nat, start: nat): (c: Option<nat>)
    requires start <= i <= |s| && k <= 4 && PathSpan(s, start, i)
    ensures c.Some? ==> start <= c.value < |s| && i < |s| && s[|s| - 1] in Digits
    ensures c.Some? ==> PathSpan(s, i, |s|) && PathSpan(s, c.value, |s|)
    decreases |s| - i, 4 - k
  {
    var digit := i < |s| && s[i] in Digits;
    var slash := i < |s| && s[i] == '/';
    if k == 0 || k == 2 then
      var longer := if digit then MatchFrom(s, i + 1, k, start) else None;
      if longer.Some? then longer else MatchFrom(s, i, k + 1, start)
    else if k == 1 || k == 3 then
      var took := if slash then MatchFrom(s, i + 1, k + 1, start) else None;
      if took.Some? then took else MatchFrom(s, i, k + 1, start)
    else if digit then
      var again := MatchFrom(s, i + 1, 0, i + 1);
      if again.Some? then again else if i + 1 == |s| then Some(start) else None
    else None
  }

  /** `re.findall` tries the start positions from left to right; the first one that
      matches ends at the end of the string, so there is at most one match. */
  function Leftmost(s: string, i: nat): (c: Option<nat>)
    requires i <= |s|
    ensures c.Some? ==> i <= c.value < |s| && PathSpan(s, c.value, |s|) && s[|s| - 1] in Digits
    decreases |s| - i
  {
    var m := MatchFrom(s, i, 0, i);
    if m.Some? then m else if i == |s| then None else Leftmost(s, i + 1)
  }

  /** The joined result: the last repetition's capture, or nothing when there is no match.
      It is a suffix of the name, of digits and slashes, that ends in a digit. */
  function PortPath(p: string): (r: string)
    ensures |r| <= |p| && r == p[|p| - |r|..]
    ensures r == [] || r[|r| - 1] in Digits
    ensures forall c | c in r :: c in Digits || c == '/'
  {
    match Leftmost(p, 0)
    case None => []
    case Some(c) => p[c..]
  }

  /** A greedy `[0-9]*` over the digit run s[i..m] settles on the longest choice j
      from which the rest of the pattern matches. */
  lemma {:induction false} StarTakes(s: string, i: nat, m: nat, k: nat, next: nat, start: nat, j: nat)
    requires (k == 0 || k == 2) && next == k + 1
    requires start <= i <= j <= m <= |s| && PathSpan(s, start, i) && DigitSpan(s, i, m)
    requires m == |s| || s[m] !in Digits
    requires MatchFrom(s, j, next, start).Some?
    requires forall j' | j < j' <= m :: MatchFrom(s, j', next, start).None?
    ensures MatchFrom(s, i, k, start) == MatchFrom(s, j, next, start)
    decreases m - i
  {
    if i < j {
      StarTakes(s, i + 1, m, k, next, start, j);
    } else if i < m {
      StarFails(s, i + 1, m, k, next, start);
    }
  }

  /** ... and fails when the rest of the pattern matches after no choice. */
  lemma {:induction false} StarFails(s: string, i: nat, m: nat, k: nat, next: nat, start: nat)
    requires (k == 0 || k == 2) && next == k + 1
    requires start <= i <= m <= |s| && PathSpan(s, start, i) && DigitSpan(s, i, m)
    requires m == |s| || s[m] !in Digits
    requires forall j' | i <= j' <= m :: MatchFrom(s, j', next, start).None?
    ensures MatchFrom(s, i, k, start).None?
    decreases m - i
  {
    if i < m {
      StarFails(s, i + 1, m, k, next, start);
    }
  }

  /** From a `[0-9]*` item, a run of digits up to the end finishes the current repetition. */
  lemma {:induction false} DigitsToEnd(s: string, j: nat, k: nat, start: nat)
    requires k == 0 || k == 2
    requires start <= j < |s| && PathSpan(s, start, j) && DigitSpan(s, j, |s|)
    ensures MatchFrom(s, j, k, start) == Some(start)
    decreases 4 - k
  {
    var last := |s| - 1;
    if k == 0 {
      DigitsToEnd(s, last, 2, start);
    }
    assert MatchFrom(s, last, k + 1, start) == Some(start);
    StarTakes(s, j, |s|, k, k + 1, start, last);
  }

  /** "n1/n2" at i0 is one repetition. */
  lemma MatchTwoLevels(s: string, i0: nat, a: nat)
    requires i0 < a && a + 1 < |s| && s[a] == '/'
    requires DigitSpan(s, i0, a) && DigitSpan(s, a + 1, |s|)
    ensures MatchFrom(s, i0, 0, i0) == Some(i0)
  {
    DigitsToEnd(s, a + 1, 2, i0);
    assert MatchFrom(s, a, 1, i0) == Some(i0);
    StarTakes(s, i0, a, 0, 1, i0, a);
  }

  /** "n1/n2/n3" at i0: the first repetition ends one digit into n3 (at b + 2), and
      what is left of n3, if anything, is a second repetition. */
  lemma MatchThreeLevels(s: string, i0: nat, a: nat, b: nat)
    requires i0 < a && a + 1 < b && b + 1 < |s| && s[a] == '/' && s[b] == '/'
    requires DigitSpan(s, i0, a) && DigitSpan(s, a + 1, b) && DigitSpan(s, b + 1, |s|)
    ensures MatchFrom(s, i0, 0, i0) == Some(if b + 2 == |s| then i0 else b + 2)
  {
    if b + 2 < |s| {
      DigitsToEnd(s, b + 2, 0, b + 2);
    }
    assert MatchFrom(s, b, 3, i0) == Some(if b + 2 == |s| then i0 else b + 2);
    StarTakes(s, a + 1, b, 2, 3, i0, b);
    assert MatchFrom(s, a, 1, i0) == Some(if b + 2 == |s| then i0 else b + 2);
    StarTakes(s, i0, a, 0, 1, i0, a);
  }

  /** No start position before a character other than a digit or a slash matches. */
  lemma {:induction false} LeftmostFrom(s: string, i: nat, i0: nat)
    requires i <= i0 <= |s|
    requires i0 == 0 || (s[i0 - 1] !in Digits && s[i0 - 1] != '/')
    ensures Leftmost(s, i) == Leftmost(s, i0)
    decreases i0 - i
  {
    if i < i0 {
      assert !PathSpan(s, i, |s|);
      LeftmostFrom(s, i + 1, i0);
    }
  }

  /** A start position that matches is found by the scan from any position before it. */
  lemma {:induction false} LeftmostReaches(s: string, i: nat, j: nat)
    requires i <= j <= |s| && MatchFrom(s, j, 0, j).Some?
    ensures Leftmost(s, i).Some?
    decreases j - i
  {
    if i < j && MatchFrom(s, i, 0, i).None? {
      LeftmostReaches(s, i + 1, j);
    }
  }

  /** A port name yields a numeric path exactly when it ends in a digit. */
  lemma PortPathEmpty(p: string)
    ensures PortPath(p) == [] <==> p == [] || p[|p| - 1] !in Digits
  {
    if p != [] && p[|p| - 1] in Digits {
      DigitsToEnd(p, |p| - 1, 0, |p| - 1);
      LeftmostReaches(p, 0, |p| - 1);
    }
  }

  /** A non-empty run of digits. */
  predicate Number(n: string) {
    n != [] && forall c | c in n :: c in Digits
  }

  /** A name prefix that cannot extend the numeric path: empty, or ending in
      something other than a digit or a slash ("Ethernet", "mgmt"). */
  predicate Boundary(q: string) {
    q == [] || (q[|q| - 1] !in Digits && q[|q| - 1] != '/')
  }

  lemma NumberSpan(s: string, i: nat, n: string)
    requires i + |n| <= |s| && s[i..i + |n|] == n && Number(n)
    ensures DigitSpan(s, i, i + |n|)
  {
    forall k | i <= k < i + |n| ensures s[k] in Digits {
      assert s[k] == n[k - i];
    }
  }

  /** "mgmt0" gives "0": a single number is captured whole. */
  lemma PortPathOneLevel(q: string, n: string)
    requires Boundary(q) && Number(n)
    ensures PortPath(q + n) == n
  {
    var s := q + n;
    assert s[|q|..] == n;
    NumberSpan(s, |q|, n);
    DigitsToEnd(s, |q|, 0, |q|);
    LeftmostFrom(s, 0, |q|);
  }

  /** "Ethernet1/49" gives "1/49": a two-level path is captured whole. */
  lemma PortPathTwoLevels(q: string, n1: string, n2: string)
    requires Boundary(q) && Number(n1) && Number(n2)
    ensures PortPath(q + n1 + "/" + n2) == n1 + "/" + n2
  {
    var s := q + n1 + "/" + n2;
    TwoShape(s, q, n1, n2);
    MatchTwoLevels(s, |q|, |q| + |n1|);
    LeftmostFrom(s, 0, |q|);
  }

  lemma TwoShape(s: string, q: string, n1: string, n2: string)
    requires s == q + n1 + "/" + n2
    requires Number(n1) && Number(n2)
    ensures s[|q| + |n1|] == '/'
    ensures DigitSpan(s, |q|, |q| + |n1|) && DigitSpan(s, |q| + |n1| + 1, |s|)
    ensures s[|q|..] == n1 + "/" + n2
  {
    var a := |q| + |n1|;
    assert s[|q|..a] == n1 && s[a + 1..] == n2;
    NumberSpan(s, |q|, n1);
    NumberSpan(s, a + 1, n2);
  }

  /** A three-level path is captured whole only when its last number has one digit;
      otherwise the capture is that number without its first digit. */
  lemma PortPathThreeLevels(q: string, n1: string, n2: string, n3: string)
    requires Boundary(q) && Number(n1) && Number(n2) && Number(n3)
    ensures PortPath(q + n1 + "/" + n2 + "/" + n3) == if |n3| == 1 then n1 + "/" + n2 + "/" + n3 else n3[1..]
  {
    var s := q + n1 + "/" + n2 + "/" + n3;
    ThreeShape(s, q, n1, n2, n3);
    var a := |q| + |n1|;
    var b := a + 1 + |n2|;
    MatchThreeLevels(s, |q|, a, b);
    var c := if b + 2 == |s| then |q| else b + 2;
    PathFromMatch(s, |q|, c);
    if |n3| == 1 {
      assert b + 2 == |s| && PortPath(s) == s[|q|..];
    } else {
      assert b + 2 < |s| && PortPath(s) == s[b + 2..];
    }
  }

  /** A match found at a position where no match can start earlier is the result. */
  lemma PathFromMatch(s: string, i0: nat, c: nat)
    requires i0 <= |s| && (i0 == 0 || (s[i0 - 1] !in Digits && s[i0 - 1] != '/'))
    requires MatchFrom(s, i0, 0, i0) == Some(c)
    ensures c <= |s| && PortPath(s) == s[c..]
  {
    LeftmostFrom(s, 0, i0);
  }

  lemma ThreeShape(s: string, q: string, n1: string, n2: string, n3: string)
    requires s == q + n1 + "/" + n2 + "/" + n3
    requires Number(n1) && Number(n2) && Number(n3)
    ensures s[|q| + |n1|] == '/' && s[|q| + |n1| + 1 + |n2|] == '/'
    ensures DigitSpan(s, |q|, |q| + |n1|) && DigitSpan(s, |q| + |n1| + 1, |q| + |n1| + 1 + |n2|)
    ensures DigitSpan(s, |q| + |n1| + 2 + |n2|, |s|)
    ensures |s| == |q| + |n1| + |n2| + |n3| + 2
    ensures s[|q|..] == n1 + "/" + n2 + "/" + n3 && s[|q| + |n1| + |n2| + 3..] == n3[1..]
  {
    var a := |q| + |n1|;
    var b := a + 1 + |n2|;
    assert s[|q|..a] == n1 && s[a + 1..b] == n2 && s[b + 1..] == n3;
    NumberSpan(s, |q|, n1);
    NumberSpan(s, a + 1, n2);
    NumberSpan(s, b + 1, n3);
  }

  /** A fabric-extender port whose last number has two digits: the capture keeps
      only the last repetition. */
  lemma FexPort()
    ensures PortPath("Ethernet101/1/48") == "8"
  {
    assert Boundary("Ethernet") && Number("101") && Number("1") && Number("48");
    PortPathThreeLevels("Ethernet", "101", "1", "48");
    assert "Ethernet" + "101" + "/" + "1" + "/" + "48" == "Ethernet101/1/48";
  }

  /** A front-panel port is captured whole. */
  lemma FrontPanelPort()
    ensures PortPath("Ethernet1/49") == "1/49"
  {
    assert Boundary("Ethernet") && Number("1") && Number("49");
    PortPathTwoLevels("Ethernet", "1", "49");
    assert "Ethernet" + "1" + "/" + "49" == "Ethernet1/49";
  }
}
