/**
 * `if_counter` of both scripts: read one interface row, apply the -u / -d filters,
 * shorten the description, and return the running bit-rate sums with this row's
 * rates added. The newer script (nx_ifrate.py) also reads the discard counters
 * with -r and looks up the neighbour with -n.
 */
module Counter {
  import opened Base
  import opened Text
  import opened Neighbor

  /** Which script: n9k_ifrate.py (the older one) or nx_ifrate.py. */
  datatype Variant = N9k | Nx

  /** The switches -d (only rows with a description), -u (drop rows whose state is "down"),
      -r (discard columns) and -n (neighbour column). -l only adds a printed column. */
  datatype Flags = Flags(descOnly: bool, upOnly: bool, discards: bool, neighbors: bool)

  /** Everything one run fixes up front: the script, its switches, the remove-list
      (`rm_list or []`) and whether the CDP and LLDP queries produced a table. */
  datatype Config = Config(variant: Variant, flags: Flags, rm: seq<string>, hasCdp: bool, hasLldp: bool)

  /** `max_descr_width` of nx_ifrate.py. */
  const MaxDescrWidth := 23

  /** n9k_ifrate.py keeps the first 20 characters of a description. */
  const N9kDescrWidth := 20

  /** The longest description text shown. */
  function DescrWidth(variant: Variant): nat {
    if variant == Nx then MaxDescrWidth - 1 else N9kDescrWidth
  }

  /** One `ROW_interface` element of `show interface`; a missing child element is None.
      Bit rates and the bandwidth are the integers `int(...)` makes of their text. */
  datatype Row = Row(
    name: Option<string>,
    state: Option<string>,
    desc: Option<string>,
    bandwidth: Option<nat>,
    rxInterval: Option<string>,
    rxBits: Option<nat>,
    rxPackets: Option<string>,
    txInterval: Option<string>,
    txBits: Option<nat>,
    txPackets: Option<string>,
    inDiscards: Option<string>,
    outDiscards: Option<string>)

  /** What `Element.clear()` leaves of a row: every lookup on it raises AttributeError. */
  const Cleared := Row(None, None, None, None, None, None, None, None, None, None, None, None)

  /** The fields of one printed table row. Mbps and percent are derived from the bit
      rates and the bandwidth when printing. */
  datatype View = View(
    name: string,
    descr: string,
    state: string,
    bandwidth: nat,
    rxInterval: string,
    rxBits: nat,
    rxPackets: string,
    txInterval: string,
    txBits: nat,
    txPackets: string,
    discards: Option<(string, string)>)

  /** The two running sums, `rx_bps_sum` and `tx_bps_sum`. */
  datatype Totals = Totals(rx: nat, tx: nat)

  /** How one `if_counter` call ends: it returns the (possibly unchanged) sums, having
      printed a row or not, or it raises. */
  datatype Step =
    | Returned(totals: Totals, view: Option<View>)
    | AttributeError
    | ZeroDivisionError

  /** The description after the remove-list and the "Ethernet" -> "e" rewrite (nx_ifrate.py);
      n9k_ifrate.py uses the text as it is. */
  function Normalized(variant: Variant, desc: string, rm: seq<string>): (r: string)
    ensures |r| <= |desc|
    ensures forall c | c in r :: c in desc || c == 'e'
    ensures variant == N9k ==> r == desc
  {
    if variant == Nx then Replace(RemoveAll(desc, rm), "Ethernet", "e") else desc
  }

  /** A description made of a prefix and a suffix on the remove-list around a name is
      shown as the bare name, provided the prefix has a character found nowhere after it,
      the suffix's first character is not in the name, and the name holds no "Ethernet". */
  lemma NormalizedAffixes(prefix: string, name: string, suffix: string, c: char)
    requires prefix != [] && suffix != []
    requires c in prefix && c !in name + suffix
    requires suffix[0] !in name
    requires !Occurs(name, "Ethernet")
    ensures Normalized(Nx, prefix + name + suffix, [prefix, suffix]) == name
  {
    var rm := [prefix, suffix];
    var s := prefix + name + suffix;
    AbsentChar(name + suffix, prefix, c);
    assert s == prefix + (name + suffix);
    DropFirst(s, prefix, name + suffix);
    DropLast(name, suffix);
    assert Remove(s, prefix) == name + suffix;
    assert Remove(name + suffix, suffix) == name;
    assert rm[0] == prefix && rm[1..] == [suffix] && [suffix][0] == suffix && [suffix][1..] == [];
    assert RemoveAll(name + suffix, [suffix]) == RemoveAll(name, []) == name;
    assert RemoveAll(s, rm) == RemoveAll(name + suffix, [suffix]);
    ReplaceAbsent(name, "Ethernet", "e");
  }

  /** "connected-to-coreSW01.mydom.dom" with the remove-list "connected-to-, .mydom.dom"
      is shown as "coreSW01". */
  lemma NormalizedExample()
    ensures Normalized(Nx, "connected-to-" + "coreSW01" + ".mydom.dom", ["connected-to-", ".mydom.dom"]) == "coreSW01"
  {
    var prefix, name, suffix := "connected-to-", "coreSW01", ".mydom.dom";
    assert '-' in prefix && '-' !in name + suffix && suffix[0] !in name;
    AbsentChar(name, "Ethernet", 'E');
    NormalizedAffixes(prefix, name, suffix, '-');
  }

  /** The description column: "---" without a description, otherwise the normalised text
      cut to the column width. It is never longer than the width, is a prefix of the
      normalised text, is all of it when that fits, and fills the width when it does not. */
  function DescText(variant: Variant, desc: Option<string>, rm: seq<string>): (r: string)
    ensures |r| <= DescrWidth(variant)
    ensures desc.None? ==> r == "---"
    ensures desc.Some? ==> |r| <= |Normalized(variant, desc.value, rm)| && r == Normalized(variant, desc.value, rm)[..|r|]
    ensures desc.Some? ==> (|Normalized(variant, desc.value, rm)| <= DescrWidth(variant) <==> r == Normalized(variant, desc.value, rm))
    ensures desc.Some? && |Normalized(variant, desc.value, rm)| > DescrWidth(variant) ==> |r| == DescrWidth(variant)
  {
    match desc
    case None => "---"
    case Some(d) => Take(Normalized(variant, d, rm), DescrWidth(variant))
  }

  /** Normalisation never lengthens a description, so one that fits the column is shown whole
      after normalisation. */
  lemma NormalizedFits(variant: Variant, desc: string, rm: seq<string>)
    requires |desc| <= DescrWidth(variant)
    ensures DescText(variant, Some(desc), rm) == Normalized(variant, desc, rm)
  {
  }

  /** Whether this script reads the discard counters. */
  predicate WantsDiscards(cfg: Config) {
    cfg.variant == Nx && cfg.flags.discards
  }

  /** Whether this script looks up a neighbour. */
  predicate WantsNeighbor(cfg: Config) {
    cfg.variant == Nx && cfg.flags.neighbors
  }

  /** The early returns: with -u a row whose state is exactly "down", with -d a row without
      a description element. Any other state, "notconnect" included, passes -u. */
  predicate Filtered(cfg: Config, row: Row)
    ensures Filtered(cfg, row) ==> row.state.Some? && (cfg.flags.upOnly || cfg.flags.descOnly)
    ensures cfg.flags.upOnly && !cfg.flags.descOnly && row.state.Some? ==> (Filtered(cfg, row) <==> row.state.value == "down")
  {
    row.state.Some? &&
    ((cfg.flags.upOnly && row.state.value == "down") || (cfg.flags.descOnly && row.desc.None?))
  }

  /** The fields read before the first division by the bandwidth. */
  predicate ReachesDivision(row: Row) {
    row.bandwidth.Some? && row.rxInterval.Some? && row.rxBits.Some?
  }

  /** Every field the row needs is there and the bandwidth is not zero. */
  predicate Complete(cfg: Config, row: Row) {
    && ReachesDivision(row) && row.bandwidth.value > 0
    && row.rxPackets.Some? && row.txInterval.Some? && row.txBits.Some? && row.txPackets.Some?
    && (WantsDiscards(cfg) ==> row.inDiscards.Some? && row.outDiscards.Some?)
  }

  /** The row is printed: it has a state, no filter drops it, and it is complete. */
  predicate Renders(cfg: Config, row: Row) {
    row.state.Some? && !Filtered(cfg, row) && Complete(cfg, row)
  }

  /** The row reaches `... * 100 / bw` with a zero bandwidth. */
  predicate DividesByZero(cfg: Config, row: Row) {
    row.state.Some? && !Filtered(cfg, row) && ReachesDivision(row) && row.bandwidth.value == 0
  }

  /** The printed row of an interface that renders. */
  function ViewOf(cfg: Config, iface: string, row: Row): (v: View)
    requires Renders(cfg, row)
    ensures v.name == iface && v.state == row.state.value
    ensures v.rxBits == row.rxBits.value && v.txBits == row.txBits.value
    ensures |v.descr| <= DescrWidth(cfg.variant)
    ensures v.discards.Some? <==> WantsDiscards(cfg)
  {
    View(iface, DescText(cfg.variant, row.desc, cfg.rm), row.state.value, row.bandwidth.value,
         row.rxInterval.value, row.rxBits.value, row.rxPackets.value,
         row.txInterval.value, row.txBits.value, row.txPackets.value,
         if WantsDiscards(cfg) then Some((row.inDiscards.value, row.outDiscards.value)) else None)
  }

  /** `if_counter` without the neighbour lookup, in the order the source reads the fields:
      state; the two filters; description; bandwidth, rx interval, rx bits; the division
      by the bandwidth; rx packets, tx interval, tx bits, tx packets; discards with -r.
      A missing field raises AttributeError; a zero bandwidth raises ZeroDivisionError.
      The sums come back unchanged from a filtered row and grow by exactly the row's bit
      rates from a printed one. */
  function IfCounter(cfg: Config, iface: string, row: Row, sums: Totals): (r: Step)
    ensures r.Returned? && r.view.None? <==> Filtered(cfg, row)
    ensures r.Returned? && r.view.Some? <==> Renders(cfg, row)
    ensures r.ZeroDivisionError? <==> DividesByZero(cfg, row)
    ensures r.Returned? && r.view.None? ==> r.totals == sums
    ensures r.Returned? && r.view.Some? ==>
              r.totals == Totals(sums.rx + row.rxBits.value, sums.tx + row.txBits.value)
              && r.view.value == ViewOf(cfg, iface, row)
  {
    if row.state.None? then AttributeError
    else if cfg.flags.upOnly && row.state.value == "down" then Returned(sums, None)
    else if cfg.flags.descOnly && row.desc.None? then Returned(sums, None)
    else if !ReachesDivision(row) then AttributeError
    else if row.bandwidth.value == 0 then ZeroDivisionError
    else if row.rxPackets.None? || row.txInterval.None? || row.txBits.None? || row.txPackets.None? then AttributeError
    else if WantsDiscards(cfg) && (row.inDiscards.None? || row.outDiscards.None?) then AttributeError
    else Returned(Totals(sums.rx + row.rxBits.value, sums.tx + row.txBits.value), Some(ViewOf(cfg, iface, row)))
  }

  /** Whether a row prints, and what it prints, does not depend on the sums passed in. */
  lemma OutcomeIgnoresSums(cfg: Config, iface: string, row: Row, a: Totals, b: Totals)
    ensures IfCounter(cfg, iface, row, a).Returned? == IfCounter(cfg, iface, row, b).Returned?
    ensures IfCounter(cfg, iface, row, a).Returned? ==>
              IfCounter(cfg, iface, row, a).view == IfCounter(cfg, iface, row, b).view
  {
  }

  /** -d and -u together print exactly the rows each of them prints alone (AND). */
  lemma FiltersCombine(cfg: Config, row: Row)
    requires cfg.flags.descOnly && cfg.flags.upOnly
    ensures Renders(cfg, row) <==>
              Renders(cfg.(flags := cfg.flags.(upOnly := false)), row)
              && Renders(cfg.(flags := cfg.flags.(descOnly := false)), row)
  {
  }

  /** The older script's row: the first 20 characters of the description, and it never
      reads discards or neighbours, whatever the switches. */
  lemma N9kRow(cfg: Config, iface: string, row: Row, sums: Totals)
    requires cfg.variant == N9k && Renders(cfg, row)
    ensures IfCounter(cfg, iface, row, sums).view.value.descr
              == if row.desc.None? then "---" else Take(row.desc.value, N9kDescrWidth)
    ensures IfCounter(cfg, iface, row, sums).view.value.discards.None?
    ensures !WantsNeighbor(cfg)
  {
  }

  /** The Mbps column before rounding to one decimal. Both scripts divide with true
      division (`from __future__ import division`). Scaling back by a million gives the
      bit rate. */
  function Mbps(bits: nat): (r: real)
    ensures r >= 0.0 && r * 1000000.0 == bits as real
  {
    bits as real / 1000000.0
  }

  /** The load in percent of the bandwidth (kbit/s) before rounding, from
      `(bps / 1000) * 100 / bw`; it is a tenth of the bit rate per kbit/s of bandwidth. */
  function Percent(bits: nat, bw: nat): (r: real)
    requires bw > 0
    ensures r >= 0.0 && r * (bw as real) * 10.0 == bits as real
  {
    (bits as real / 1000.0) * 100.0 / bw as real
  }

  /** One gigabit per second of bandwidth carrying 500 and 250 Mbit/s. */
  lemma RatesExample()
    ensures Mbps(500000000) == 500.0 && Percent(500000000, 1000000) == 50.0
    ensures Mbps(250000000) == 250.0 && Percent(250000000, 1000000) == 25.0
  {
  }

  /** `if_counter` with its neighbour lookup: when the row is printed under -n, the CDP
      table and then the LLDP table are consulted, and the row used is consumed. Nothing
      is looked up for a row that raises or is filtered. */
  method CountRow(cfg: Config, iface: string, row: Row, sums: Totals,
                  cdp: array<CdpRow>, lldp: array<LldpRow>) returns (step: Step, neighbor: Option<string>)
    modifies cdp, lldp
    ensures step == IfCounter(cfg, iface, row, sums)
    ensures neighbor.Some? <==> Renders(cfg, row) && WantsNeighbor(cfg)
    ensures neighbor.Some? ==>
              neighbor.value == Resolve(if cfg.hasCdp then Some(old(cdp[..])) else None,
                                        if cfg.hasLldp then Some(old(lldp[..])) else None, iface, cfg.rm)
    ensures neighbor.None? ==> cdp[..] == old(cdp[..]) && lldp[..] == old(lldp[..])
    ensures neighbor.Some? ==> cdp[..] == if cfg.hasCdp then CdpConsumed(old(cdp[..]), iface) else old(cdp[..])
    ensures neighbor.Some? ==>
              var fromCdp := if cfg.hasCdp then CdpLookup(old(cdp[..]), iface, cfg.rm) else NoNeighbor;
              lldp[..] == if cfg.hasLldp && fromCdp == NoNeighbor then LldpConsumed(old(lldp[..]), iface) else old(lldp[..])
    ensures forall j | 0 <= j < cdp.Length :: cdp[j] == old(cdp[j]) || cdp[j] == ClearedCdp
    ensures forall j | 0 <= j < lldp.Length :: lldp[j] == old(lldp[j]) || lldp[j] == ClearedLldp
  {
    step := IfCounter(cfg, iface, row, sums);
    neighbor := None;
    if step.Returned? && step.view.Some? && WantsNeighbor(cfg) {
      var n := ResolveNeighbor(iface, cfg.rm, cfg.hasCdp, cdp, cfg.hasLldp, lldp);
      neighbor := Some(n);
    }
  }
}
