# n9k_ifrate / nx_ifrate in Dafny

A model of the core of two Cisco Nexus on-box scripts that print a per-interface
bit-rate table: `n9k_ifrate.py` (the older one, for Python 2) and `nx_ifrate.py` (the
newer one with a remove-list, discard counters and a neighbour column). Both import
true division (`from __future__ import division`), so every rate is an exact quotient
before rounding.

Both scripts walk the parsed output of `show port-channel summary` and
`show interface`. The walk happens in two passes:

1. For every port-channel, the script prints the port-channel's own interface row
   and then each member's row, clearing every row it has counted.
2. It then hands every interface row that still has a name to `if_counter`, which
   prints the rows that pass the `-u` and `-d` filters.

The rates of member and standalone rows are summed for the summary line; the rates of
port-channel rows are not. `if_counter` reads one row, applies the `-u` and `-d`
filters, shortens the description, computes the rates and, under `-n`, looks up the
CDP or LLDP neighbour.

The files:

- `base.dfy`: `Option`. A child element that an XML row does not have reads as `None`.
- `text.dfy`: the Python string operations the scripts use, with Python's meaning:
  `str.strip`, `str.split`, `str.replace`, `s[:n]`, and the remove-list loop.
- `removelist.dfy`: `rmlist_parser`, from the captured
  `event manager environment NAME "VALUE"` lines to the list of substrings to remove.
- `numericpath.dfy`: the numeric part of a port name,
  `re.findall('([0-9]*/?[0-9]*/?[0-9])+$', name)`, as the regex engine's backtracking
  search for that pattern. A repeated group captures only its last repetition, so
  "Ethernet1/49" gives "1/49" but the fabric-extender port "Ethernet101/1/48" gives
  "8" (`FexPort`). CDP neighbours on such ports are shown as "...-E8", and their LLDP
  lookup key is "Eth8", which no LLDP row for "Eth101/1/48" matches (`FexLocalShort`).
- `neighbor.dfy`: `getcdpnbor`, `getlldpnbor` and the CDP-then-LLDP fallback. The
  neighbour tables are arrays, and the row a lookup uses is cleared in place.
- `counter.dfy`: `if_counter` of both scripts (`Variant = N9k | Nx`), as a function
  `IfCounter` whose outcome is a normal return, an `AttributeError`, or a
  `ZeroDivisionError`. `CountRow` adds the neighbour lookup, which changes the tables.
- `traversal.dfy`: the main loop of both scripts as methods over an `array<Row>`. An
  `Element.clear()` is modelled as overwriting the row with `Cleared`, a row without
  any child element.

Every printed line carries a ghost `Origin`, made of:

- its position, where slot 0 of port-channel c is the channel's own name, slot m+1 is
  member m, and position (|channels|, 0) is the second pass;
- the index of the interface row it came from.

`Run` proves the following:

- Each line is the `if_counter` output of the row at its origin.
- That origin is the first place the program meets the row (`Home`).
- Lines appear in visiting order, and no row is printed twice.
- Unless a zero bandwidth stopped the run, exactly the rows that render are printed.
- The totals are the sums over the member and standalone lines.

Two behaviours of the code that its own help text does not suggest, both modelled as
the code has them:

- `-u` is documented as "list ports in up state" (nx_ifrate.py:29, :86-90), but
  `if_counter` returns early only when the state is exactly "down"
  (nx_ifrate.py:208-210). Rows in state "notconnect" and the like are printed.
  See `Counter.Filtered`.
- A bandwidth of 0 makes `(rx_bps / 1000) * 100 / bw` raise ZeroDivisionError
  (nx_ifrate.py:233, n9k_ifrate.py:104). The main loops catch only AttributeError
  (nx_ifrate.py:382-413), so the run stops there. `IfCounter` returns
  `ZeroDivisionError` for such a row, and `Run` reports `aborted`.

I/O is a parameter:

- The XML trees are given as sequences of rows.
- An unavailable CDP or LLDP table is `hasCdp` / `hasLldp` false.
- The `cli(...)` output for the remove-list is an `Option` of the regex captures.

## Model

| member | source | states |
|---|---|---|
| Text.TrimStart | nx_ifrate.py:138 | leading whitespace (Python `isspace`) removed: the result is a suffix, everything dropped is whitespace, and it does not start with whitespace |
| Text.TrimEnd | nx_ifrate.py:138 | the mirror image for trailing whitespace |
| Text.Strip | nx_ifrate.py:138 | `item.strip()` is the piece of the item left when the whitespace before and after it is cut off (`StripsAt`); it is empty exactly when the item is all whitespace; otherwise its ends are not whitespace |
| Text.Split | nx_ifrate.py:138 | `split(",")` gives at least one part, no part holds the separator, and joining the parts with it gives the input back |
| Text.SplitJoin | nx_ifrate.py:138 | the other round trip: splitting parts that were joined (and hold no separator) gives the parts |
| Text.CutAt | nx_ifrate.py:156-157 | `s.split(c)[0]` is the longest prefix without c; it is followed by c when shorter than s |
| Text.Take | nx_ifrate.py:225 | `s[:n]` is a prefix of s; it is all of s exactly when s has at most n characters, and exactly n characters long otherwise |
| Text.Replace | nx_ifrate.py:223 | `str.replace` with a non-empty target never lengthens the text when the replacement is no longer than the target; every character comes from the text or the replacement |
| Text.ReplaceAbsent | nx_ifrate.py:223 | replacing a target that does not occur changes nothing |
| Text.ReplaceShrinks | nx_ifrate.py:160 | removing a target that occurs makes the text strictly shorter |
| Text.AbsentChar | nx_ifrate.py:223 | a text that lacks one of the target's characters holds no occurrence of it |
| Text.DropFirst | nx_ifrate.py:223 | removing a target that opens the text, and does not occur in the rest, leaves the rest |
| Text.DropLast | nx_ifrate.py:223 | removing a target that closes the text, when no earlier character can start it, leaves what came before |
| Text.Remove | nx_ifrate.py:160 | `s.replace(r, "")` never lengthens s and adds no characters; an empty entry leaves s as it is |
| Text.RemoveChanges | nx_ifrate.py:160 | removing a non-empty entry changes the text exactly when the entry occurs in it |
| Text.RemoveAll | nx_ifrate.py:220-222 | applying the whole remove-list never lengthens the text or adds characters |
| Text.RemoveAllConcat | nx_ifrate.py:220-222 | applying a list is applying its first part and then the rest, in list order |
| Text.ApplyRemoveList | nx_ifrate.py:220-222 | the `for r in rm_list` loop computes exactly `RemoveAll` |
| RemoveList.Environment | nx_ifrate.py:132 | the dict comprehension has exactly the assigned names as keys |
| RemoveList.LastAssignmentWins | nx_ifrate.py:132 | in the dict, the last assignment to a name decides its value |
| RemoveList.StrippedEntries | nx_ifrate.py:138 | the list comprehension keeps only non-empty stripped items, so every entry is non-empty with no whitespace at either end |
| RemoveList.StrippedEntriesConcat | nx_ifrate.py:138 | the comprehension works item by item: the entries of two runs of items are the entries of the first followed by those of the second |
| RemoveList.StrippedEntriesPart | nx_ifrate.py:138 | each item contributes, in place, its stripped text, or nothing when that is empty |
| RemoveList.StrippedEntriesAvoid | nx_ifrate.py:138 | a character that no item holds is in no entry |
| RemoveList.Entries | nx_ifrate.py:136-138 | the entries of an RMLIST value are non-empty, hold no comma, and are trimmed |
| RemoveList.EntriesOfJoined | nx_ifrate.py:136-138 | round trip: well-formed entries written comma-separated parse back to the same entries |
| RemoveList.EntriesOfParts | nx_ifrate.py:136-138 | any comma-separated value, padded or with blank items, parses to the stripped non-blank items in order |
| RemoveList.StrippedIdentity | nx_ifrate.py:138 | items that are already trimmed and non-empty pass through the comprehension unchanged |
| RemoveList.ParseRemoveList | nx_ifrate.py:114-144 | the result is a list exactly when the command produced output that assigns RMLIST; its entries are non-empty and hold no comma |
| RemoveList.LastRmListWins | nx_ifrate.py:132-138 | with several RMLIST lines, the last one gives the list |
| Neighbor.TrailingRun | nx_ifrate.py:192 | the longest suffix made only of allowed characters |
| Neighbor.HasEthTailIff | nx_ifrate.py:180 | `re.findall('(Eth).+', name)` is non-empty exactly when "Eth" occurs with at least one character after it |
| Neighbor.LocalShort | nx_ifrate.py:180-182 | the LLDP key starts with "Eth" exactly when the name holds "Eth" followed by a character; the rest is a suffix of the name of digits and slashes |
| Neighbor.LocalShortTwoLevels | nx_ifrate.py:180-182 | a name "Eth…n1/n2" has the key "Eth" + "n1/n2" |
| Neighbor.FrontPanelLocalShort | nx_ifrate.py:180-183 | "Ethernet1/49" has the key "Eth1/49", so an LLDP row for "Eth1/49" with both ids answers for it |
| Neighbor.FamilyLetter | nx_ifrate.py:163 | `([E,G,T]).+` yields at most one character, of the class; none exactly when no such character has one after it; otherwise the leftmost such character |
| NumericPath.MatchFrom | nx_ifrate.py:164 | the backtracking search for `([0-9]*/?[0-9]*/?[0-9])+$`: a match it finds covers only digits and slashes up to the end of the name, which ends in a digit, and its capture starts within the match |
| NumericPath.Leftmost | nx_ifrate.py:164 | `re.findall` takes the first start position that matches; the capture is digits and slashes up to the end |
| NumericPath.PortPath | nx_ifrate.py:164 | the joined capture is a suffix of the port name, made of digits and slashes, that ends in a digit |
| NumericPath.StarTakes | nx_ifrate.py:164 | a greedy `[0-9]*` settles on the longest choice after which the rest of the pattern matches |
| NumericPath.StarFails | nx_ifrate.py:164 | a greedy `[0-9]*` fails when the rest of the pattern matches after no choice |
| NumericPath.DigitsToEnd | nx_ifrate.py:164 | digits up to the end of the name finish the current repetition |
| NumericPath.MatchTwoLevels | nx_ifrate.py:164 | "n1/n2" is matched by one repetition |
| NumericPath.MatchThreeLevels | nx_ifrate.py:164 | on "n1/n2/n3" the first repetition ends one digit into n3, and the rest of n3 is a second repetition |
| NumericPath.LeftmostFrom | nx_ifrate.py:164 | no start position before a character other than a digit or slash matches |
| NumericPath.LeftmostReaches | nx_ifrate.py:164 | a start position that matches is found by the left-to-right scan |
| NumericPath.PathFromMatch | nx_ifrate.py:164 | a match that starts just after a character that cannot be part of the path is the one `re.findall` returns, and the capture runs to the end |
| NumericPath.PortPathEmpty | nx_ifrate.py:164 | the numeric path is empty exactly when the name does not end in a digit |
| NumericPath.PortPathOneLevel | nx_ifrate.py:164 | a name ending in one number ("mgmt0") gives that number |
| NumericPath.PortPathTwoLevels | nx_ifrate.py:164 | a name ending in "n1/n2" gives "n1/n2" |
| NumericPath.PortPathThreeLevels | nx_ifrate.py:164 | a name ending in "n1/n2/n3" gives all of it when n3 has one digit, and otherwise only n3 without its first digit |
| NumericPath.FexPort | nx_ifrate.py:164 | "Ethernet101/1/48" gives "8" |
| NumericPath.FrontPanelPort | nx_ifrate.py:164 | "Ethernet1/49" gives "1/49" |
| Neighbor.LldpPortPath | nx_ifrate.py:192 | `([0-9/:]*)$` is the longest suffix made of digits, slashes and colons: the character before it is none of them |
| Neighbor.FexLocalShort | nx_ifrate.py:179-183 | the LLDP key of "Ethernet101/1/48" is "Eth8", so an LLDP row for "Eth101/1/48" never answers for it |
| Neighbor.CdpHost | nx_ifrate.py:155-157 | the device id cut at the first "(" and then at the first ".": the longest prefix holding neither, followed by "(" or "." when it is shorter than the id |
| Neighbor.CdpDevice | nx_ifrate.py:155-160 | the host name after the remove-list: it holds no "(" and no ".", is no longer than the host name, and with an empty list is the host name |
| Neighbor.CdpEntry | nx_ifrate.py:163-166 | the CDP entry is the shortened device name, a dash, then at most one family letter and digits and slashes from the port id |
| Neighbor.FirstCdp | nx_ifrate.py:150-153 | the first CDP row for the interface that has a device id and a port id; no earlier row qualifies, and none when the result is None |
| Neighbor.CdpConsumedOnce | nx_ifrate.py:167-168 | after a lookup has cleared its row, the next lookup for the same interface gets the next usable row |
| Neighbor.GetCdpNeighbor | nx_ifrate.py:147-171 | the loop returns the entry of the first usable row, or "---", and clears exactly that row |
| Neighbor.FirstLldp | nx_ifrate.py:177-183 | the first LLDP row whose local port is the interface's short "EthX/Y" form and that has a chassis id and a port id |
| Neighbor.LldpEntry | nx_ifrate.py:185-194 | the LLDP entry is the chassis id after the remove-list, a dash, then at most one family letter and digits, slashes and colons from the port id |
| Neighbor.GetLldpNeighbor | nx_ifrate.py:174-199 | the LLDP loop returns the entry of the first usable row, or "---", and clears exactly that row |
| Neighbor.LldpFallback | nx_ifrate.py:256-265 | with no CDP match, or no CDP table, the first usable LLDP row gives the neighbour |
| Neighbor.CdpPreferred | nx_ifrate.py:256-265 | a CDP result other than "---" is final |
| Neighbor.NoMatchNoNeighbor | nx_ifrate.py:256-265 | with no usable row in either table, the neighbour is "---" |
| Neighbor.Resolve | nx_ifrate.py:256-265 | without either table the neighbour is "---"; any other answer comes from a usable row of the CDP or the LLDP table |
| Neighbor.ResolveNeighbor | nx_ifrate.py:256-265 | the `-n` lookup returns `Resolve` of the tables; a table is consumed only when it was asked |
| Counter.DescText | nx_ifrate.py:217-225 | the description column is "---" without a description; otherwise it is a prefix of the normalised text, at most 22 (nx) or 20 (n9k) characters long, all of that text when it fits, and exactly the width when it does not |
| Counter.Normalized | nx_ifrate.py:220-224 | the remove-list and the "Ethernet" -> "e" rewrite never lengthen a description and add no character but "e"; n9k_ifrate.py keeps it as it is |
| Counter.NormalizedAffixes | nx_ifrate.py:220-224 | a name between a prefix and a suffix on the remove-list is shown bare, when neither can be found inside the rest |
| Counter.NormalizedExample | nx_ifrate.py:220-224 | "connected-to-coreSW01.mydom.dom" with the remove-list "connected-to-, .mydom.dom" is shown as "coreSW01" |
| Counter.NormalizedFits | nx_ifrate.py:219-225 | a description that fits the column is shown whole after normalisation, because normalisation never lengthens it |
| Counter.ViewOf | nx_ifrate.py:227-247 | a printed row carries the interface's name, state and bit rates, the description column within its width, and discard counters exactly under `-r` in nx_ifrate.py |
| Counter.IfCounter | nx_ifrate.py:202-285 | returns the sums unchanged exactly for a row the filters drop; prints exactly for a row that renders, adding exactly its bit rates; raises ZeroDivisionError exactly for an unfiltered row that reaches the division with bandwidth 0; raises AttributeError otherwise |
| Counter.OutcomeIgnoresSums | nx_ifrate.py:202-285 | whether a row prints, and what it prints, does not depend on the sums passed in |
| Counter.FiltersCombine | nx_ifrate.py:208-215 | `-d -u` prints exactly the rows that both `-d` alone and `-u` alone print |
| Counter.Filtered | nx_ifrate.py:208-215 | only -u or -d drop a row, and only one with a state; under -u alone a row is dropped exactly when its state is "down" |
| Counter.N9kRow | n9k_ifrate.py:78-121 | the older if_counter shows the first 20 characters of the raw description and never reads discards or neighbours |
| Counter.Mbps | nx_ifrate.py:232 | the Mbps value before rounding (true division), which scales back to the bit rate |
| Counter.Percent | nx_ifrate.py:233 | the load before rounding: a tenth of the bit rate per kbit/s of bandwidth |
| Counter.RatesExample | n9k_ifrate.py:103-110 | the same true-division formulas in both scripts: 500 and 250 Mbit/s on a 1 Gbit/s port are 500.0 / 50.0 and 250.0 / 25.0 |
| Counter.CountRow | nx_ifrate.py:202-285 | the outcome is `IfCounter`'s; a neighbour is looked up exactly for a printed row under `-n`, and it is `Resolve` of the tables before the call; the CDP table is consumed when it exists, the LLDP table exactly when it exists and CDP gave "---" |
| Traversal.MemberIndex | nx_ifrate.py:385-391 | the first member port equal to the name |
| Traversal.FirstSlot | nx_ifrate.py:371-391 | the first slot of a port-channel that names the interface; a channel without a name names nothing |
| Traversal.FirstMention | nx_ifrate.py:369-401 | the first position of the first pass that names the interface; no earlier position does |
| Traversal.TallyAppend | nx_ifrate.py:394 | printing a member or standalone line adds its bit rates to the sums; printing a port-channel line adds nothing |
| Traversal.SummaryRates | nx_ifrate.py:416-417 | the summary Mbps, before rounding, is the sum of the Mbps columns of the member and standalone lines |
| Traversal.TallySkipsChannels | nx_ifrate.py:377-379 | the totals are those of the non-port-channel lines alone |
| Traversal.VisitRow | nx_ifrate.py:372-382 | one row of a first-pass scan keeps the visiting invariants: a matched row that returns is cleared, its line is printed if it renders, and the sums grow only for member rows |
| Traversal.ScanRows | nx_ifrate.py:372-397 | a full scan of the interface rows for one name keeps the invariants and leaves the cursor at the next position |
| Traversal.ScanChannel | nx_ifrate.py:369-401 | one port-channel: its own rows, then its members in order; a channel without a name is skipped with its members |
| Traversal.FirstPass | nx_ifrate.py:369-402 | the loop over all port-channels keeps the visiting invariants up to the second pass, and stops only on a zero-bandwidth row |
| Traversal.VisitStandalone | nx_ifrate.py:406-414 | one row of the second pass: a row still named is counted with the sums kept, and nothing is cleared |
| Traversal.ScanStandalone | nx_ifrate.py:406-414 | the second loop over all interface rows keeps the invariants to the end, and stops only on a zero-bandwidth row |
| Traversal.DistinctSources | nx_ifrate.py:381 | no interface row is printed twice |
| Traversal.Run | nx_ifrate.py:369-417 | lines come from their rows' first visit, in visiting order, with no row twice; without a crash, exactly the named rows that render are printed; it crashes exactly when some named row divides by zero; totals are the sums of the member and standalone lines, and the summary Mbps is the sum of their Mbps columns; rows and neighbour entries are only ever cleared |
| Traversal.RunN9k | n9k_ifrate.py:157-203 | the same two passes and the same guarantees for the older script, whose lines never carry a neighbour or discards; without a crash, exactly the rows met in the first pass on which if_counter returns are cleared |

## Left out

- XML parsing, the `cli(...)` calls and printing are not modelled. The rows,
  port-channels and neighbour tables are inputs. The table layout and column widths,
  the header, the `-l` interval column, and the neighbour column cut to its width
  happen only when printing.
- The regex `event manager environment\s+(\S+)\s+"([^"]+)"` is not modelled.
  `ParseRemoveList` takes its captures as input.
- Rounding to one decimal and float formatting are not modelled. `Mbps` and `Percent`
  are exact reals, before `round(..., 1)`.
- Neighbor.FamilyLetter assumes port names hold no line break (`.` does not match one).
- NumericPath.PortPath and Neighbor.LldpPortPath assume the same: `$` also matches just
  before a final line break, which is not modelled.
- Neighbor.HasEthTail and Neighbor.LocalShort assume the same for `(Eth).+`.
- A field element that is present but has no text (`.text` is None) is not modelled.
  nx_ifrate.py would raise AttributeError on such a description; n9k_ifrate.py would
  raise an uncaught TypeError. Fields are `Option` of their value.
- Text that `int(...)` cannot read is not modelled: it raises an uncaught ValueError.
  Negative bit rates or bandwidths are not modelled either. Rates and bandwidths are `nat`.
- Traversal.Run: each line is stated to carry a neighbour exactly under `-n`, not which
  text. That text depends on the rows that earlier lookups consumed; `CountRow` states
  it for one call.
- Traversal.Run: when a zero bandwidth stops the run, the lines printed before the
  crash are stated to be well-formed, in visiting order and without repeats. They are
  not stated to be exactly all the rows visited before the crash.
- Option parsing (`optparse`, the usage error on positional arguments) is not modelled.
  The switches are the `Flags` record.
