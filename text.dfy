/**
 * The string operations the scripts use, with Python's meaning:
 * str.strip(), str.split(sep), str.replace(old, new), slicing s[:n], and the
 * remove-list loop `for r in rm_list: s = s.replace(r, "")`.
 */
module Text {

  /** The characters for which Python's str.isspace() holds; str.strip() removes these. */
  predicate IsSpace(c: char) {
    || c == ' '
    || ('\t' <= c <= '\r')
    || ('\U{1C}' <= c <= '\U{1F}')
    || c == '\U{85}' || c == '\U{A0}' || c == '\U{1680}'
    || ('\U{2000}' <= c <= '\U{200A}')
    || c == '\U{2028}' || c == '\U{2029}' || c == '\U{202F}' || c == '\U{205F}' || c == '\U{3000}'
  }

  /** r is s with its longest all-whitespace prefix removed: a suffix of s, everything
      dropped is whitespace, and r does not start with whitespace. */
  predicate LStripOf(s: string, r: string) {
    && |r| <= |s| && r == s[|s| - |r|..]
    && (forall i | 0 <= i < |s| - |r| :: IsSpace(s[i]))
    && (r == [] || !IsSpace(r[0]))
  }

  /** The mirror image: r is s with its longest all-whitespace suffix removed. */
  predicate RStripOf(s: string, r: string) {
    && |r| <= |s| && r == s[..|r|]
    && (forall i | |r| <= i < |s| :: IsSpace(s[i]))
    && (r == [] || !IsSpace(r[|r| - 1]))
  }

  /** str.lstrip(). */
  function TrimStart(s: string): (r: string)
    ensures LStripOf(s, r)
  {
    if s != [] && IsSpace(s[0]) then TrimStart(s[1..]) else s
  }

  /** str.rstrip(). */
  function TrimEnd(s: string): (r: string)
    ensures RStripOf(s, r)
  {
    if s != [] && IsSpace(s[|s| - 1]) then TrimEnd(s[..|s| - 1]) else s
  }

  /** t occurs in s starting at position i. */
  predicate OccursAt(s: string, t: string, i: nat) {
    i + |t| <= |s| && s[i..i + |t|] == t
  }

  predicate Occurs(s: string, t: string) {
    exists i: nat | i <= |s| :: OccursAt(s, t, i)
  }

  /** A non-empty string with no whitespace at either end. */
  predicate Trimmed(e: string) {
    e != [] && !IsSpace(e[0]) && !IsSpace(e[|e| - 1])
  }

  /** r is s[i..i + |r|], and everything of s before and after it is whitespace. */
  predicate StripsAt(s: string, r: string, i: nat) {
    && i + |r| <= |s| && r == s[i..i + |r|]
    && (forall j | 0 <= j < i :: IsSpace(s[j]))
    && (forall j | i + |r| <= j < |s| :: IsSpace(s[j]))
  }

  /** str.strip(): the piece of s left when the whitespace before and after it is
      cut off; empty exactly when s is all whitespace, and otherwise starting and
      ending with a non-whitespace character. */
  function Strip(s: string): (r: string)
    ensures exists i :: StripsAt(s, r, i)
    ensures Occurs(s, r) && forall c | c in r :: c in s
    ensures r == [] <==> forall i | 0 <= i < |s| :: IsSpace(s[i])
    ensures r != [] ==> Trimmed(r)
  {
    StripAt(s);
    TrimEnd(TrimStart(s))
  }

  /** Where the stripped text sits in s: just after the leading whitespace. */
  lemma StripAt(s: string)
    ensures var t := TrimStart(s); var r := TrimEnd(t);
      && StripsAt(s, r, |s| - |t|) && OccursAt(s, r, |s| - |t|)
      && (r == [] ==> t == []) && (r != [] ==> r[0] == s[|s| - |t|])
  {
    StripParts(s, TrimStart(s), TrimEnd(TrimStart(s)));
  }

  /** StripAt for any t and r with the properties of lstrip and then rstrip. */
  lemma StripParts(s: string, t: string, r: string)
    requires LStripOf(s, t) && RStripOf(t, r)
    ensures StripsAt(s, r, |s| - |t|) && OccursAt(s, r, |s| - |t|)
    ensures (r == [] ==> t == []) && (r != [] ==> r[0] == s[|s| - |t|])
  {
    InnerSlice(s, t, r);
    TailSpace(s, t, r);
  }

  /** A prefix r of a suffix t of s is the slice of s where t starts. */
  lemma InnerSlice(s: string, t: string, r: string)
    requires |t| <= |s| && t == s[|s| - |t|..]
    requires |r| <= |t| && r == t[..|r|]
    ensures r == s[|s| - |t|..|s| - |t| + |r|]
    ensures r != [] ==> r[0] == s[|s| - |t|]
  {
  }

  /** Whitespace after r in t is whitespace after the same place in s. */
  lemma TailSpace(s: string, t: string, r: string)
    requires |t| <= |s| && t == s[|s| - |t|..] && |r| <= |t|
    requires forall i | |r| <= i < |t| :: IsSpace(t[i])
    ensures forall j | |s| - |t| + |r| <= j < |s| :: IsSpace(s[j])
  {
    forall j | |s| - |t| + |r| <= j < |s| ensures IsSpace(s[j]) {
      assert s[j] == t[j - (|s| - |t|)];
    }
  }

  /** The inverse of Split: the parts with the separator between neighbours. */
  function Join(parts: seq<string>, sep: char): string
  {
    if parts == [] then []
    else if |parts| == 1 then parts[0]
    else parts[0] + [sep] + Join(parts[1..], sep)
  }

  /** str.split(sep) for a one-character separator: always at least one part,
      no part holds the separator, and joining the parts gives s back. */
  function Split(s: string, sep: char): (parts: seq<string>)
    ensures |parts| >= 1
    ensures forall p <- parts :: sep !in p
    ensures Join(parts, sep) == s
  {
    if s == [] then [[]]
    else
      var rest := Split(s[1..], sep);
      if s[0] == sep then
        assert Join([[]] + rest, sep) == [sep] + Join(rest, sep);
        [[]] + rest
      else
        var parts := [[s[0]] + rest[0]] + rest[1..];
        assert parts[1..] == rest[1..];
        assert Join(parts, sep) == [s[0]] + Join(rest, sep) by {
          if |rest| > 1 {
            assert Join(rest, sep) == rest[0] + [sep] + Join(rest[1..], sep);
          }
        }
        parts
  }

  /** Splitting a part that holds no separator gives that part alone. */
  lemma {:induction false} SplitNoSeparator(p: string, sep: char)
    requires sep !in p
    ensures Split(p, sep) == [p]
  {
    if p != [] {
      SplitNoSeparator(p[1..], sep);
      assert [p[0]] + p[1..] == p;
    }
  }

  /** Splitting at the first separator peels off the part before it. */
  lemma {:induction false} SplitAtFirst(p: string, sep: char, t: string)
    requires sep !in p
    ensures Split(p + [sep] + t, sep) == [p] + Split(t, sep)
  {
    var s := p + [sep] + t;
    if p == [] {
      assert s[1..] == t;
    } else {
      assert s[1..] == p[1..] + [sep] + t;
      SplitAtFirst(p[1..], sep, t);
      assert [p[0]] + p[1..] == p;
    }
  }

  /** Round trip the other way: splitting joined parts that hold no separator gives the parts. */
  lemma {:induction false} SplitJoin(parts: seq<string>, sep: char)
    requires |parts| >= 1
    requires forall p <- parts :: sep !in p
    ensures Split(Join(parts, sep), sep) == parts
  {
    if |parts| == 1 {
      SplitNoSeparator(parts[0], sep);
    } else {
      SplitJoin(parts[1..], sep);
      SplitAtFirst(parts[0], sep, Join(parts[1..], sep));
      assert [parts[0]] + parts[1..] == parts;
    }
  }

  /** `s.split(sep)[0]`: everything before the first separator (all of s when there is none). */
  function CutAt(s: string, sep: char): (r: string)
    ensures sep !in r
    ensures |r| <= |s| && r == s[..|r|]
    ensures |r| < |s| ==> s[|r|] == sep
  {
    var parts := Split(s, sep);
    assert Join(parts, sep) == s;
    if |parts| > 1 then
      assert s == parts[0] + [sep] + Join(parts[1..], sep);
      parts[0]
    else
      parts[0]
  }

  /** Slicing `s[:n]` with n >= 0: the first n characters, or all of s when it is shorter. */
  function Take(s: string, n: nat): (r: string)
    ensures |r| <= n && |r| <= |s| && r == s[..|r|]
    ensures |s| <= n <==> r == s
    ensures n < |s| ==> |r| == n
  {
    if |s| <= n then s else s[..n]
  }

  /** str.replace(target, replacement) for a non-empty target: scan left to right,
      replacing each occurrence that does not overlap an earlier replaced one;
      the text produced by a replacement is not scanned again. */
  function Replace(s: string, target: string, replacement: string): (r: string)
    requires target != []
    ensures |replacement| <= |target| ==> |r| <= |s|
    ensures forall c | c in r :: c in s || c in replacement
    decreases |s|
  {
    if |s| < |target| then s
    else if s[..|target|] == target then
      var rest := Replace(s[|target|..], target, replacement);
      assert forall c | c in s[|target|..] :: c in s;
      replacement + rest
    else
      var rest := Replace(s[1..], target, replacement);
      assert forall c | c in s[1..] :: c in s;
      [s[0]] + rest
  }

  /** Where the target does not occur, Replace changes nothing. */
  lemma {:induction false} ReplaceAbsent(s: string, target: string, replacement: string)
    requires target != [] && !Occurs(s, target)
    ensures Replace(s, target, replacement) == s
    decreases |s|
  {
    if |s| >= |target| {
      assert !OccursAt(s, target, 0);
      assert !Occurs(s[1..], target) by {
        forall i: nat | OccursAt(s[1..], target, i) ensures false {
          assert s[1..][i..i + |target|] == s[i + 1..i + 1 + |target|];
          assert OccursAt(s, target, i + 1);
        }
      }
      ReplaceAbsent(s[1..], target, replacement);
      assert [s[0]] + s[1..] == s;
    }
  }

  /** Where the target occurs and the replacement is shorter, the result is strictly shorter. */
  lemma {:induction false} ReplaceShrinks(s: string, target: string, replacement: string)
    requires target != [] && |replacement| < |target| && Occurs(s, target)
    ensures |Replace(s, target, replacement)| < |s|
    decreases |s|
  {
    var i: nat :| i <= |s| && OccursAt(s, target, i);
    if s[..|target|] != target {
      assert i > 0;
      assert s[1..][i - 1..i - 1 + |target|] == s[i..i + |target|];
      assert OccursAt(s[1..], target, i - 1);
      ReplaceShrinks(s[1..], target, replacement);
    }
  }

  /** A string that lacks one of t's characters holds no occurrence of t. */
  lemma AbsentChar(s: string, t: string, c: char)
    requires c in t && c !in s
    ensures !Occurs(s, t)
  {
  }

  /** Removing a target that opens s, and does not occur in the rest, leaves the rest. */
  lemma DropFirst(s: string, t: string, rest: string)
    requires t != [] && s == t + rest && !Occurs(rest, t)
    ensures Replace(s, t, []) == rest
  {
    assert s[..|t|] == t && s[|t|..] == rest;
    ReplaceAbsent(rest, t, []);
  }

  /** Removing a target that closes s, when no earlier character can start it, leaves
      what came before it. */
  lemma {:induction false} DropLast(w: string, t: string)
    requires t != [] && t[0] !in w
    ensures Replace(w + t, t, []) == w
    decreases |w|
  {
    var s := w + t;
    if w == [] {
      assert s == t && s[|t|..] == [];
    } else {
      assert s[0] == w[0] != t[0];
      assert s[..|t|] != t;
      assert s[1..] == w[1..] + t;
      DropLast(w[1..], t);
      assert [w[0]] + w[1..] == w;
    }
  }

  /** `s.replace(entry, "")`; an empty entry leaves s as it is, as in Python. */
  function Remove(s: string, entry: string): (r: string)
    ensures |r| <= |s|
    ensures forall c | c in r :: c in s
  {
    if entry == [] then s else Replace(s, entry, [])
  }

  /** Removing a non-empty entry changes s exactly when the entry occurs in s. */
  lemma RemoveChanges(s: string, entry: string)
    requires entry != []
    ensures Remove(s, entry) == s <==> !Occurs(s, entry)
  {
    if Occurs(s, entry) {
      ReplaceShrinks(s, entry, []);
    } else {
      ReplaceAbsent(s, entry, []);
    }
  }

  /** The remove-list loop: each entry removed in list order, once through. */
  function RemoveAll(s: string, rm: seq<string>): (r: string)
    ensures |r| <= |s|
    ensures forall c | c in r :: c in s
    decreases |rm|
  {
    if rm == [] then s else RemoveAll(Remove(s, rm[0]), rm[1..])
  }

  /** Applying a list is applying its first part, then the rest to the result. */
  lemma {:induction false} RemoveAllConcat(s: string, a: seq<string>, b: seq<string>)
    ensures RemoveAll(s, a + b) == RemoveAll(RemoveAll(s, a), b)
    decreases |a|
  {
    if a == [] {
      assert a + b == b;
    } else {
      assert (a + b)[0] == a[0] && (a + b)[1..] == a[1..] + b;
      RemoveAllConcat(Remove(s, a[0]), a[1..], b);
    }
  }

  /** `for r in (rm_list or []): s = s.replace(r, "")`, run step by step. */
  method ApplyRemoveList(s: string, rm: seq<string>) returns (r: string)
    ensures r == RemoveAll(s, rm)
  {
    r := s;
    var i := 0;
    while i < |rm|
      invariant 0 <= i <= |rm|
      invariant RemoveAll(r, rm[i..]) == RemoveAll(s, rm)
    {
      assert rm[i..][1..] == rm[i + 1..];
      r := Remove(r, rm[i]);
      i := i + 1;
    }
  }
}
