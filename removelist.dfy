/**
 * The remove-list (`rmlist_parser` in nx_ifrate.py): the value of the
 * `event manager environment RMLIST "a, b, c"` configuration line, as a list of
 * substrings to delete from descriptions and neighbour names.
 */
module RemoveList {
  import opened Base
  import opened Text

  /** One `event manager environment NAME "VALUE"` line, as the configuration
      pattern captures it: the variable name and the text between the quotes. */
  datatype Assignment = Assignment(name: string, value: string)

  const RmListName := "RMLIST"

  /** `{key: value for key, value in matches}`: every name assigned somewhere is a key,
      and a later assignment to a name overrides an earlier one. */
  function Environment(matches: seq<Assignment>): (env: map<string, string>)
    ensures env.Keys == set j | 0 <= j < |matches| :: matches[j].name
  {
    if matches == [] then map[]
    else
      var init := matches[..|matches| - 1];
      var last := matches[|matches| - 1];
      var env := Environment(init)[last.name := last.value];
      assert (set j | 0 <= j < |matches| :: matches[j].name)
          == (set j | 0 <= j < |init| :: init[j].name) + {last.name} by {
        forall j | 0 <= j < |init| ensures init[j].name == matches[j].name { }
      }
      env
  }

  /** The last assignment to a name decides its value in the environment. */
  lemma {:induction false} LastAssignmentWins(matches: seq<Assignment>, i: nat)
    requires i < |matches|
    requires forall j | i < j < |matches| :: matches[j].name != matches[i].name
    ensures matches[i].name in Environment(matches)
    ensures Environment(matches)[matches[i].name] == matches[i].value
    decreases |matches|
  {
    if i < |matches| - 1 {
      var init := matches[..|matches| - 1];
      LastAssignmentWins(init, i);
    }
  }

  /** `[item.strip() for item in parts if item.strip()]`: the stripped parts that are
      not empty, in their original order. */
  function StrippedEntries(parts: seq<string>): (entries: seq<string>)
    ensures |entries| <= |parts|
    ensures forall e <- entries :: Trimmed(e)
  {
    if parts == [] then [] else Kept(parts[0]) + StrippedEntries(parts[1..])
  }

  /** What one part contributes: its stripped text, unless that is empty. */
  function Kept(part: string): (k: seq<string>)
    ensures |k| <= 1 && forall e <- k :: Trimmed(e)
  {
    var e := Strip(part);
    if e == [] then [] else [e]
  }

  /** The entries of two runs of parts, one after the other, are the entries of each. */
  lemma {:induction false} StrippedEntriesConcat(a: seq<string>, b: seq<string>)
    ensures StrippedEntries(a + b) == StrippedEntries(a) + StrippedEntries(b)
    decreases |a|
  {
    if a != [] {
      var x := a + b;
      assert x[0] == a[0] && x[1..] == a[1..] + b;
      StrippedEntriesCons(x);
      StrippedEntriesCons(a);
      StrippedEntriesConcat(a[1..], b);
      var k, p, q := Kept(a[0]), StrippedEntries(a[1..]), StrippedEntries(b);
      assert k + (p + q) == (k + p) + q;
    } else {
      assert a + b == b;
    }
  }

  /** One step of the comprehension: the first part's contribution, then the rest. */
  lemma StrippedEntriesCons(parts: seq<string>)
    requires parts != []
    ensures StrippedEntries(parts) == Kept(parts[0]) + StrippedEntries(parts[1..])
  {
  }

  /** Each part contributes, in place, its stripped text, or nothing when that is empty. */
  lemma StrippedEntriesPart(a: seq<string>, p: string, b: seq<string>)
    ensures StrippedEntries(a + [p] + b)
         == StrippedEntries(a) + (if Strip(p) == [] then [] else [Strip(p)]) + StrippedEntries(b)
  {
    var k := if Strip(p) == [] then [] else [Strip(p)];
    assert StrippedEntries([p]) == k by {
      assert [p][0] == p && [p][1..] == [];
      assert StrippedEntries([p]) == Kept(p) + StrippedEntries([]);
    }
    StrippedEntriesConcat(a, [p]);
    StrippedEntriesConcat(a + [p], b);
  }

  /** A character that no part holds is in no entry either. */
  lemma {:induction false} StrippedEntriesAvoid(parts: seq<string>, c: char)
    requires forall p <- parts :: c !in p
    ensures forall e <- StrippedEntries(parts) :: c !in e
  {
    if parts != [] {
      StrippedEntriesAvoid(parts[1..], c);
    }
  }

  /** The list form of one remove-list value: split on ",", every entry stripped of
      surrounding whitespace, empty entries dropped. No entry is empty, holds a comma,
      or starts or ends with whitespace. */
  function Entries(value: string): (entries: seq<string>)
    ensures forall e <- entries :: Trimmed(e) && ',' !in e
  {
    var parts := Split(value, ',');
    StrippedEntriesAvoid(parts, ',');
    StrippedEntries(parts)
  }

  /** Stripping a string with no whitespace at either end leaves it as it is. */
  lemma StripTrimmed(e: string)
    requires Trimmed(e)
    ensures Strip(e) == e
  {
  }

  /** Round trip: writing well-formed entries comma-separated and parsing the value back
      gives the same entries. */
  lemma {:induction false} EntriesOfJoined(entries: seq<string>)
    requires forall e <- entries :: Trimmed(e) && ',' !in e
    ensures Entries(Join(entries, ',')) == entries
  {
    if entries == [] {
      assert Split([], ',') == [[]];
      assert StrippedEntries([[]]) == StrippedEntries([]);
    } else {
      SplitJoin(entries, ',');
      StrippedIdentity(entries);
    }
  }

  /** Parsing any comma-separated value, padded or with empty items, gives the entries
      of its items: each stripped, the blank ones dropped. */
  lemma EntriesOfParts(parts: seq<string>)
    requires parts != [] && forall p <- parts :: ',' !in p
    ensures Entries(Join(parts, ',')) == StrippedEntries(parts)
  {
    SplitJoin(parts, ',');
  }

  lemma {:induction false} StrippedIdentity(entries: seq<string>)
    requires forall e <- entries :: Trimmed(e)
    ensures StrippedEntries(entries) == entries
  {
    if entries != [] {
      StripTrimmed(entries[0]);
      StrippedIdentity(entries[1..]);
      assert [entries[0]] + entries[1..] == entries;
    }
  }

  /** `rmlist_parser()`. `output` is None when the configuration command failed or
      printed nothing (`if env_cmd:` is false); otherwise it holds the captured
      assignments in configuration order. The result is None (no removal) unless some
      assignment names RMLIST; then it is the entries of the last such assignment. */
  function ParseRemoveList(output: Option<seq<Assignment>>): (rm: Option<seq<string>>)
    ensures rm.Some? <==> output.Some? && exists j | 0 <= j < |output.value| :: output.value[j].name == RmListName
    ensures rm.Some? ==> forall e <- rm.value :: e != [] && ',' !in e
  {
    if output.None? then None
    else
      var env := Environment(output.value);
      if RmListName in env then Some(Entries(env[RmListName])) else None
  }

  /** If RMLIST is assigned more than once, the last assignment wins. */
  lemma LastRmListWins(matches: seq<Assignment>, i: nat)
    requires i < |matches| && matches[i].name == RmListName
    requires forall j | i < j < |matches| :: matches[j].name != RmListName
    ensures ParseRemoveList(Some(matches)) == Some(Entries(matches[i].value))
  {
    LastAssignmentWins(matches, i);
  }
}
