/**
 * The main program of both scripts: first every port-channel of `show port-channel
 * summary` with its own interface row and then its member rows, each matching row
 * cleared once it has been counted; then every interface row still carrying a name.
 * Port-channel rows are printed but not added to the sums; member and standalone rows
 * are. The only exception that escapes is a ZeroDivisionError, which ends the run.
 */
module Traversal {
  import opened Base
  import opened Neighbor
  import opened Counter

  /** One `ROW_channel`: its `port-channel` name and the `port` of each `ROW_member`. */
  datatype Channel = Channel(name: Option<string>, members: seq<Option<string>>)

  /** A place in the first pass: slot 0 is the port-channel's own name, slot m + 1 is its
      member m. Position (|channels|, 0) stands for the second pass. */
  datatype Pos = Pos(channel: nat, slot: nat)

  /** Where a printed row came from: the position it was matched at and its index among
      the interface rows. */
  datatype Origin = Origin(pos: Pos, src: nat)

  datatype Kind = ChannelRow | MemberRow | StandaloneRow

  /** One printed table row; the neighbour column is there only with -n. */
  datatype Line = Line(kind: Kind, view: View, neighbor: Option<string>)

  /** The interface name the first pass looks for at a position. Nothing is looked for in a
      port-channel without a name: its members are skipped with it. */
  function NameAt(channels: seq<Channel>, p: Pos): Option<string>
  {
    if p.channel < |channels| && channels[p.channel].name.Some? then
      if p.slot == 0 then channels[p.channel].name
      else if p.slot - 1 < |channels[p.channel].members| then channels[p.channel].members[p.slot - 1]
      else None
    else None
  }

  predicate PosBefore(a: Pos, b: Pos) {
    a.channel < b.channel || (a.channel == b.channel && a.slot < b.slot)
  }

  /** The order in which the program visits (position, row) pairs. */
  predicate Precedes(a: Origin, b: Origin) {
    PosBefore(a.pos, b.pos) || (a.pos == b.pos && a.src < b.src)
  }

  /** The first member index at or after `from` naming n. */
  function MemberIndex(members: seq<Option<string>>, n: string, from: nat): (r: Option<nat>)
    requires from <= |members|
    ensures r.Some? ==> from <= r.value < |members| && members[r.value] == Some(n)
    ensures forall m | from <= m < |members| && members[m] == Some(n) :: r.Some? && r.value <= m
    decreases |members| - from
  {
    if from == |members| then None
    else if members[from] == Some(n) then Some(from)
    else MemberIndex(members, n, from + 1)
  }

  /** The first slot of port-channel c that names n. */
  function FirstSlot(channels: seq<Channel>, c: nat, n: string): (r: Option<nat>)
    requires c < |channels|
    ensures r.Some? ==> NameAt(channels, Pos(c, r.value)) == Some(n)
    ensures forall s: nat | NameAt(channels, Pos(c, s)) == Some(n) :: r.Some? && r.value <= s
  {
    if channels[c].name.None? then None
    else if channels[c].name.value == n then Some(0)
    else
      match MemberIndex(channels[c].members, n, 0)
      case Some(m) => Some(m + 1)
      case None => None
  }

  /** The first position from port-channel `from` on that names n: the first pass meets
      a row named n there before anywhere else. */
  function FirstMention(channels: seq<Channel>, n: string, from: nat): (r: Option<Pos>)
    requires from <= |channels|
    ensures r.Some? ==> from <= r.value.channel && NameAt(channels, r.value) == Some(n)
    ensures forall p: Pos | from <= p.channel && NameAt(channels, p) == Some(n) :: r.Some? && !PosBefore(p, r.value)
    decreases |channels| - from
  {
    if from == |channels| then None
    else
      match FirstSlot(channels, from, n)
      case Some(s) => Some(Pos(from, s))
      case None => FirstMention(channels, n, from + 1)
  }

  /** The row is named somewhere in the first pass. */
  predicate Matched(channels: seq<Channel>, row: Row) {
    row.name.Some? && FirstMention(channels, row.name.value, 0).Some?
  }

  /** if_counter returns normally on the row (it is filtered or printed). */
  predicate Returns(cfg: Config, row: Row) {
    Filtered(cfg, row) || Renders(cfg, row)
  }

  /** The row is printed, and it has a name the program can find it by. */
  predicate Shown(cfg: Config, row: Row) {
    row.name.Some? && Renders(cfg, row)
  }

  /** Where interface row k is first handed to if_counter: the first position naming it,
      or the second pass when no port-channel names it; None when it has no name. */
  function Home(channels: seq<Channel>, rows0: seq<Row>, k: nat): Option<Origin>
    requires k < |rows0|
  {
    if rows0[k].name.None? then None
    else
      match FirstMention(channels, rows0[k].name.value, 0)
      case Some(p) => Some(Origin(p, k))
      case None => Some(Origin(Pos(|channels|, 0), k))
  }

  /** The program has already handed row k to if_counter at its home when it stands at `cur`. */
  predicate Processed(channels: seq<Channel>, rows0: seq<Row>, k: nat, cur: Origin)
    requires k < |rows0|
  {
    Home(channels, rows0, k).Some? && Precedes(Home(channels, rows0, k).value, cur)
  }

  function KindAt(channels: seq<Channel>, p: Pos): Kind {
    if p.channel >= |channels| then StandaloneRow
    else if p.slot == 0 then ChannelRow
    else MemberRow
  }

  /** A printed line is the if_counter row of the interface row at its origin, the origin
      is that row's home, and it carries a neighbour exactly under -n. */
  predicate LineFrom(cfg: Config, channels: seq<Channel>, rows0: seq<Row>, line: Line, o: Origin) {
    && o.src < |rows0|
    && rows0[o.src].name.Some?
    && Home(channels, rows0, o.src) == Some(o)
    && Renders(cfg, rows0[o.src])
    && line.view == ViewOf(cfg, rows0[o.src].name.value, rows0[o.src])
    && line.kind == KindAt(channels, o.pos)
    && (line.neighbor.Some? <==> WantsNeighbor(cfg))
  }

  function Sources(origins: seq<Origin>): set<nat> {
    set j | 0 <= j < |origins| :: origins[j].src
  }

  /** The running sums: bit rates of every printed line that is not a port-channel row. */
  function Tally(lines: seq<Line>): Totals
  {
    if lines == [] then Totals(0, 0)
    else
      var t := Tally(lines[..|lines| - 1]);
      var l := lines[|lines| - 1];
      if l.kind == ChannelRow then t else Totals(t.rx + l.view.rxBits, t.tx + l.view.txBits)
  }

  lemma TallyAppend(lines: seq<Line>, l: Line)
    ensures Tally(lines + [l]) == if l.kind == ChannelRow then Tally(lines)
                                   else Totals(Tally(lines).rx + l.view.rxBits, Tally(lines).tx + l.view.txBits)
  {
    assert (lines + [l])[..|lines|] == lines;
  }

  /** Port-channel rows never contribute to the sums: the totals of a table are those of
      its member and standalone lines alone. */
  lemma {:induction false} TallySkipsChannels(lines: seq<Line>)
    ensures Tally(lines) == Tally(NonChannel(lines))
  {
    if lines != [] {
      var init := lines[..|lines| - 1];
      TallySkipsChannels(init);
      var l := lines[|lines| - 1];
      assert lines == init + [l];
      NonChannelAppend(init, l);
      var nc := NonChannel(init);
      if l.kind != ChannelRow {
        assert NonChannel(lines) == nc + [l];
        TallyAppend(nc, l);
      } else {
        assert NonChannel(lines) == nc;
      }
    }
  }

  /** The summary's Mbps before rounding, added up line by line: the Mbps column of
      every printed line that is not a port-channel row. */
  function RateSum(lines: seq<Line>, rx: bool): real
  {
    if lines == [] then 0.0
    else
      var l := lines[|lines| - 1];
      var bits := if rx then l.view.rxBits else l.view.txBits;
      RateSum(lines[..|lines| - 1], rx) + (if l.kind == ChannelRow then 0.0 else Mbps(bits))
  }

  /** The summary line (`round(rx_bps_sum / 1000000, 1)` and its tx twin) shows, before
      rounding, the sum of the Mbps columns of the member and standalone lines. */
  lemma {:induction false} SummaryRates(lines: seq<Line>)
    ensures Mbps(Tally(lines).rx) == RateSum(lines, true)
    ensures Mbps(Tally(lines).tx) == RateSum(lines, false)
  {
    if lines != [] {
      SummaryRates(lines[..|lines| - 1]);
    }
  }

  function NonChannel(lines: seq<Line>): (r: seq<Line>)
    ensures |r| <= |lines|
    ensures forall l <- r :: l.kind != ChannelRow && l in lines
  {
    if lines == [] then []
    else if lines[0].kind == ChannelRow then NonChannel(lines[1..])
    else [lines[0]] + NonChannel(lines[1..])
  }

  lemma {:induction false} NonChannelAppend(lines: seq<Line>, l: Line)
    ensures NonChannel(lines + [l]) == NonChannel(lines) + (if l.kind == ChannelRow then [] else [l])
  {
    if lines != [] {
      assert (lines + [l])[1..] == lines[1..] + [l];
      NonChannelAppend(lines[1..], l);
    } else {
      assert [l][1..] == [];
    }
  }

  /** The interface rows as the program has left them at `cur`: a row that was handed to
      if_counter in the first pass and came back is cleared; every other row is as read. */
  predicate RowState(cfg: Config, channels: seq<Channel>, rows0: seq<Row>, rows: seq<Row>, cur: Origin) {
    |rows| == |rows0| &&
    forall k | 0 <= k < |rows| ::
      rows[k] == if Processed(channels, rows0, k, cur) && Matched(channels, rows0[k]) && Returns(cfg, rows0[k])
                 then Cleared else rows0[k]
  }

  /** The lines printed before `cur`, in visiting order. */
  predicate Emitted(cfg: Config, channels: seq<Channel>, rows0: seq<Row>, out: seq<Line>, origins: seq<Origin>, cur: Origin) {
    && |out| == |origins|
    && (forall j | 0 <= j < |out| :: LineFrom(cfg, channels, rows0, out[j], origins[j]) && Precedes(origins[j], cur))
    && (forall j, j' | 0 <= j < j' < |origins| :: Precedes(origins[j], origins[j']))
  }

  /** Every row handed to if_counter before `cur` did not divide by zero, and was printed
      if it renders. */
  predicate Covered(cfg: Config, channels: seq<Channel>, rows0: seq<Row>, origins: seq<Origin>, cur: Origin) {
    forall k | 0 <= k < |rows0| && Processed(channels, rows0, k, cur) ::
      !DividesByZero(cfg, rows0[k]) && (Renders(cfg, rows0[k]) ==> k in Sources(origins))
  }

  predicate OnlyCleared(rows0: seq<Row>, rows: seq<Row>) {
    |rows| == |rows0| && forall k | 0 <= k < |rows| :: rows[k] == rows0[k] || rows[k] == Cleared
  }

  predicate CdpOnlyCleared(cdp0: seq<CdpRow>, cdp: seq<CdpRow>) {
    |cdp| == |cdp0| && forall j | 0 <= j < |cdp| :: cdp[j] == cdp0[j] || cdp[j] == ClearedCdp
  }

  predicate LldpOnlyCleared(lldp0: seq<LldpRow>, lldp: seq<LldpRow>) {
    |lldp| == |lldp0| && forall j | 0 <= j < |lldp| :: lldp[j] == lldp0[j] || lldp[j] == ClearedLldp
  }

  /** Moving the cursor over positions that name nothing hands no row to if_counter. */
  lemma SkipPositions(cfg: Config, channels: seq<Channel>, rows0: seq<Row>, origins: seq<Origin>, a: Pos, b: Pos)
    requires PosBefore(a, b)
    requires b.channel < |channels| || b == Pos(|channels|, 0)
    requires forall p: Pos | !PosBefore(p, a) && PosBefore(p, b) :: NameAt(channels, p).None?
    ensures forall k | 0 <= k < |rows0| ::
              Processed(channels, rows0, k, Origin(a, 0)) == Processed(channels, rows0, k, Origin(b, 0))
  {
    forall k | 0 <= k < |rows0|
      ensures Processed(channels, rows0, k, Origin(a, 0)) == Processed(channels, rows0, k, Origin(b, 0))
    {
      if rows0[k].name.Some? {
        var fm := FirstMention(channels, rows0[k].name.value, 0);
        if fm.Some? {
          assert NameAt(channels, fm.value).Some?;
        }
      }
    }
  }

  lemma SourcesAppend(origins: seq<Origin>, o: Origin)
    ensures Sources(origins + [o]) == Sources(origins) + {o.src}
  {
    var s := origins + [o];
    assert forall j | 0 <= j < |origins| :: s[j] == origins[j];
    assert s[|origins|] == o;
  }

  /** Moving from (p, i) to (p, i + 1) adds at most row i to the rows already handed over. */
  lemma ProcessedAdvance(channels: seq<Channel>, rows0: seq<Row>, p: Pos, i: nat)
    requires i < |rows0|
    ensures forall k | 0 <= k < |rows0| && k != i ::
              Processed(channels, rows0, k, Origin(p, i + 1)) == Processed(channels, rows0, k, Origin(p, i))
    ensures Processed(channels, rows0, i, Origin(p, i + 1))
              == (Processed(channels, rows0, i, Origin(p, i)) || Home(channels, rows0, i) == Some(Origin(p, i)))
  {
  }

  /** What the program finds at row i when it looks for the name at position p: either the
      row's home is here and it is still as read, or a row with that name is one that
      if_counter already refused with an AttributeError. */
  lemma VisitFacts(cfg: Config, channels: seq<Channel>, rows0: seq<Row>, rows: seq<Row>,
                   origins: seq<Origin>, p: Pos, i: nat, name: string)
    requires NameAt(channels, p) == Some(name) && i < |rows0|
    requires RowState(cfg, channels, rows0, rows, Origin(p, i))
    requires Covered(cfg, channels, rows0, origins, Origin(p, i))
    ensures Home(channels, rows0, i) == Some(Origin(p, i)) ==>
              rows[i] == rows0[i] && rows0[i].name == Some(name) && Matched(channels, rows0[i])
    ensures Home(channels, rows0, i) != Some(Origin(p, i)) && rows[i].name == Some(name) ==>
              rows[i] == rows0[i] && !Returns(cfg, rows0[i]) && !DividesByZero(cfg, rows0[i])
  {
    if rows0[i].name.Some? {
      var fm := FirstMention(channels, rows0[i].name.value, 0);
      if fm.Some? {
        assert NameAt(channels, fm.value).Some?;
      }
      if rows[i].name == Some(name) {
        assert rows[i] == rows0[i];
        assert fm.Some? && !PosBefore(p, fm.value);
      }
    }
  }

  /** The row state after visiting row i without clearing it. */
  lemma RowStateKeep(cfg: Config, channels: seq<Channel>, rows0: seq<Row>, rows: seq<Row>, p: Pos, i: nat)
    requires i < |rows0| && RowState(cfg, channels, rows0, rows, Origin(p, i))
    requires Home(channels, rows0, i) == Some(Origin(p, i)) ==> !(Matched(channels, rows0[i]) && Returns(cfg, rows0[i]))
    ensures RowState(cfg, channels, rows0, rows, Origin(p, i + 1))
  {
    ProcessedAdvance(channels, rows0, p, i);
  }

  /** The row state after visiting row i at its home and clearing it. */
  lemma RowStateClear(cfg: Config, channels: seq<Channel>, rows0: seq<Row>, rows: seq<Row>, p: Pos, i: nat)
    requires i < |rows0| && RowState(cfg, channels, rows0, rows, Origin(p, i))
    requires Home(channels, rows0, i) == Some(Origin(p, i))
    requires Matched(channels, rows0[i]) && Returns(cfg, rows0[i])
    ensures RowState(cfg, channels, rows0, rows[i := Cleared], Origin(p, i + 1))
  {
    ProcessedAdvance(channels, rows0, p, i);
  }

  /** Coverage after visiting row i. */
  lemma CoveredAdvance(cfg: Config, channels: seq<Channel>, rows0: seq<Row>, origins: seq<Origin>,
                       origins': seq<Origin>, p: Pos, i: nat)
    requires i < |rows0| && Covered(cfg, channels, rows0, origins, Origin(p, i))
    requires Sources(origins) <= Sources(origins')
    requires Home(channels, rows0, i) == Some(Origin(p, i)) ==>
               !DividesByZero(cfg, rows0[i]) && (Renders(cfg, rows0[i]) ==> i in Sources(origins'))
    ensures Covered(cfg, channels, rows0, origins', Origin(p, i + 1))
  {
    ProcessedAdvance(channels, rows0, p, i);
  }

  /** The printed lines after visiting row i without printing. */
  lemma EmittedKeep(cfg: Config, channels: seq<Channel>, rows0: seq<Row>, out: seq<Line>, origins: seq<Origin>, p: Pos, i: nat)
    requires Emitted(cfg, channels, rows0, out, origins, Origin(p, i))
    ensures Emitted(cfg, channels, rows0, out, origins, Origin(p, i + 1))
  {
  }

  /** Lines printed before a cursor are printed before any later one. */
  lemma EmittedLater(cfg: Config, channels: seq<Channel>, rows0: seq<Row>, out: seq<Line>, origins: seq<Origin>,
                     a: Origin, b: Origin)
    requires Emitted(cfg, channels, rows0, out, origins, a)
    requires a == b || Precedes(a, b)
    ensures Emitted(cfg, channels, rows0, out, origins, b)
  {
  }

  /** The printed lines after printing row i at position p. */
  lemma EmittedAppend(cfg: Config, channels: seq<Channel>, rows0: seq<Row>, out: seq<Line>, origins: seq<Origin>,
                      p: Pos, i: nat, line: Line)
    requires Emitted(cfg, channels, rows0, out, origins, Origin(p, i))
    requires LineFrom(cfg, channels, rows0, line, Origin(p, i))
    ensures Emitted(cfg, channels, rows0, out + [line], origins + [Origin(p, i)], Origin(p, i + 1))
  {
    var out', origins' := out + [line], origins + [Origin(p, i)];
    assert forall j | 0 <= j < |out| :: out'[j] == out[j] && origins'[j] == origins[j];
  }

  lemma RowStateOnlyCleared(cfg: Config, channels: seq<Channel>, rows0: seq<Row>, rows: seq<Row>, cur: Origin)
    requires RowState(cfg, channels, rows0, rows, cur)
    ensures OnlyCleared(rows0, rows)
  {
  }

  /** Visiting row i changes nothing when it is not the row's home or if_counter raises
      an AttributeError on it there. */
  lemma KeepRow(cfg: Config, channels: seq<Channel>, rows0: seq<Row>, rows: seq<Row>,
                out: seq<Line>, origins: seq<Origin>, p: Pos, i: nat)
    requires i < |rows0|
    requires RowState(cfg, channels, rows0, rows, Origin(p, i))
    requires Emitted(cfg, channels, rows0, out, origins, Origin(p, i))
    requires Covered(cfg, channels, rows0, origins, Origin(p, i))
    requires Home(channels, rows0, i) == Some(Origin(p, i)) ==>
               !Returns(cfg, rows0[i]) && !DividesByZero(cfg, rows0[i])
    ensures RowState(cfg, channels, rows0, rows, Origin(p, i + 1))
    ensures Emitted(cfg, channels, rows0, out, origins, Origin(p, i + 1))
    ensures Covered(cfg, channels, rows0, origins, Origin(p, i + 1))
  {
    EmittedKeep(cfg, channels, rows0, out, origins, p, i);
    CoveredAdvance(cfg, channels, rows0, origins, origins, p, i);
    RowStateKeep(cfg, channels, rows0, rows, p, i);
  }

  /** `CountRow` with only what the scans need: the outcome, whether a neighbour was
      looked up, and that the neighbour tables still differ from the originals only by
      cleared rows. */
  method CountKept(cfg: Config, iface: string, row: Row, sums: Totals,
                   cdp: array<CdpRow>, lldp: array<LldpRow>, ghost cdp0: seq<CdpRow>, ghost lldp0: seq<LldpRow>)
    returns (step: Step, neighbor: Option<string>)
    requires CdpOnlyCleared(cdp0, cdp[..]) && LldpOnlyCleared(lldp0, lldp[..])
    modifies cdp, lldp
    ensures step == IfCounter(cfg, iface, row, sums)
    ensures neighbor.Some? <==> Renders(cfg, row) && WantsNeighbor(cfg)
    ensures CdpOnlyCleared(cdp0, cdp[..]) && LldpOnlyCleared(lldp0, lldp[..])
  {
    step, neighbor := CountRow(cfg, iface, row, sums, cdp, lldp);
  }

  /** The rest of if_counter's normal return at row i of the first pass: print the line
      if there is one, keep the sums of a member row, clear the row. */
  method Record(cfg: Config, channels: seq<Channel>, p: Pos, i: nat,
                ghost rows0: seq<Row>, step: Step, neighbor: Option<string>,
                sums0: Totals, out0: seq<Line>, ghost origins0: seq<Origin>)
    returns (sums: Totals, out: seq<Line>, ghost origins: seq<Origin>)
    requires i < |rows0| && p.channel < |channels|
    requires Home(channels, rows0, i) == Some(Origin(p, i)) && Matched(channels, rows0[i])
    requires step.Returned? && !DividesByZero(cfg, rows0[i]) && (step.view.Some? <==> Renders(cfg, rows0[i]))
    requires step.view.Some? ==> step.view.value == ViewOf(cfg, rows0[i].name.value, rows0[i])
    requires step.totals == if step.view.None? then sums0
                            else Totals(sums0.rx + step.view.value.rxBits, sums0.tx + step.view.value.txBits)
    requires neighbor.Some? <==> Renders(cfg, rows0[i]) && WantsNeighbor(cfg)
    requires Emitted(cfg, channels, rows0, out0, origins0, Origin(p, i))
    requires Covered(cfg, channels, rows0, origins0, Origin(p, i))
    requires sums0 == Tally(out0)
    ensures Emitted(cfg, channels, rows0, out, origins, Origin(p, i + 1))
    ensures Covered(cfg, channels, rows0, origins, Origin(p, i + 1))
    ensures sums == Tally(out)
  {
    if step.view.Some? {
      var line := Line(KindAt(channels, p), step.view.value, neighbor);
      sums, out, origins := Emit(cfg, channels, p, i, rows0, line, if p.slot != 0 then step.totals else sums0,
                                 sums0, out0, origins0);
    } else {
      sums, out, origins := sums0, out0, origins0;
      EmittedKeep(cfg, channels, rows0, out, origins, p, i);
      CoveredAdvance(cfg, channels, rows0, origins, origins, p, i);
    }
  }

  /** Printing the line of row i at position p: the line joins the output, and the sums
      become `sums` (the caller's new running sums). */
  method Emit(cfg: Config, channels: seq<Channel>, p: Pos, i: nat, ghost rows0: seq<Row>, line: Line,
              sums1: Totals, sums0: Totals, out0: seq<Line>, ghost origins0: seq<Origin>)
    returns (sums: Totals, out: seq<Line>, ghost origins: seq<Origin>)
    requires i < |rows0| && LineFrom(cfg, channels, rows0, line, Origin(p, i)) && !DividesByZero(cfg, rows0[i])
    requires sums1 == if line.kind == ChannelRow then sums0
                      else Totals(sums0.rx + line.view.rxBits, sums0.tx + line.view.txBits)
    requires Emitted(cfg, channels, rows0, out0, origins0, Origin(p, i))
    requires Covered(cfg, channels, rows0, origins0, Origin(p, i))
    requires sums0 == Tally(out0)
    ensures Emitted(cfg, channels, rows0, out, origins, Origin(p, i + 1))
    ensures Covered(cfg, channels, rows0, origins, Origin(p, i + 1))
    ensures sums == Tally(out)
  {
    EmittedAppend(cfg, channels, rows0, out0, origins0, p, i, line);
    SourcesAppend(origins0, Origin(p, i));
    TallyAppend(out0, line);
    out := out0 + [line];
    origins := origins0 + [Origin(p, i)];
    sums := sums1;
    CoveredAdvance(cfg, channels, rows0, origins0, origins, p, i);
  }


  /** Row i of the scan for the name at position p of the first pass. A row that matches
      is handed to if_counter; its line is printed when it renders; the sums are kept
      for member rows only; the row is cleared when if_counter returns. */
  method VisitRow(cfg: Config, channels: seq<Channel>, p: Pos, name: string,
                  rows: array<Row>, cdp: array<CdpRow>, lldp: array<LldpRow>, i: nat,
                  ghost rows0: seq<Row>, ghost cdp0: seq<CdpRow>, ghost lldp0: seq<LldpRow>,
                  sums0: Totals, out0: seq<Line>, ghost origins0: seq<Origin>)
    returns (sums: Totals, out: seq<Line>, aborted: bool, ghost origins: seq<Origin>)
    requires NameAt(channels, p) == Some(name) && i < rows.Length
    requires RowState(cfg, channels, rows0, rows[..], Origin(p, i))
    requires Emitted(cfg, channels, rows0, out0, origins0, Origin(p, i))
    requires Covered(cfg, channels, rows0, origins0, Origin(p, i))
    requires sums0 == Tally(out0)
    requires CdpOnlyCleared(cdp0, cdp[..]) && LldpOnlyCleared(lldp0, lldp[..])
    modifies rows, cdp, lldp
    ensures Emitted(cfg, channels, rows0, out, origins, Origin(p, i + 1))
    ensures sums == Tally(out)
    ensures OnlyCleared(rows0, rows[..])
    ensures CdpOnlyCleared(cdp0, cdp[..]) && LldpOnlyCleared(lldp0, lldp[..])
    ensures !aborted ==> RowState(cfg, channels, rows0, rows[..], Origin(p, i + 1))
    ensures !aborted ==> Covered(cfg, channels, rows0, origins, Origin(p, i + 1))
    ensures aborted ==> rows0[i].name.Some? && DividesByZero(cfg, rows0[i])
  {
    sums, out, aborted, origins := sums0, out0, false, origins0;
    RowStateOnlyCleared(cfg, channels, rows0, rows[..], Origin(p, i));
    EmittedKeep(cfg, channels, rows0, out, origins, p, i);
    VisitFacts(cfg, channels, rows0, rows[..], origins, p, i, name);
    if rows[i].name != Some(name) {
      KeepRow(cfg, channels, rows0, rows[..], out, origins, p, i);
      return;
    }
    var step, neighbor := CountKept(cfg, name, rows[i], sums, cdp, lldp, cdp0, lldp0);
    if step.ZeroDivisionError? {
      aborted := true;
      return;
    }
    if step.AttributeError? {
      KeepRow(cfg, channels, rows0, rows[..], out, origins, p, i);
      return;
    }
    ghost var before := rows[..];
    sums, out, origins := Record(cfg, channels, p, i, rows0, step, neighbor, sums, out, origins);
    RowStateClear(cfg, channels, rows0, before, p, i);
    rows[i] := Cleared;
    assert rows[..] == before[i := Cleared];
    RowStateOnlyCleared(cfg, channels, rows0, rows[..], Origin(p, i + 1));
  }

  /** One scan of all interface rows for the name at position p of the first pass. */
  method ScanRows(cfg: Config, channels: seq<Channel>, p: Pos, name: string,
                  rows: array<Row>, cdp: array<CdpRow>, lldp: array<LldpRow>,
                  ghost rows0: seq<Row>, ghost cdp0: seq<CdpRow>, ghost lldp0: seq<LldpRow>,
                  sums0: Totals, out0: seq<Line>, ghost origins0: seq<Origin>)
    returns (sums: Totals, out: seq<Line>, aborted: bool, ghost origins: seq<Origin>)
    requires NameAt(channels, p) == Some(name)
    requires RowState(cfg, channels, rows0, rows[..], Origin(p, 0))
    requires Emitted(cfg, channels, rows0, out0, origins0, Origin(p, 0))
    requires Covered(cfg, channels, rows0, origins0, Origin(p, 0))
    requires sums0 == Tally(out0)
    requires CdpOnlyCleared(cdp0, cdp[..]) && LldpOnlyCleared(lldp0, lldp[..])
    modifies rows, cdp, lldp
    ensures Emitted(cfg, channels, rows0, out, origins, Origin(p, rows.Length))
    ensures sums == Tally(out)
    ensures OnlyCleared(rows0, rows[..])
    ensures CdpOnlyCleared(cdp0, cdp[..]) && LldpOnlyCleared(lldp0, lldp[..])
    ensures !aborted ==> RowState(cfg, channels, rows0, rows[..], Origin(p, rows.Length))
    ensures !aborted ==> Covered(cfg, channels, rows0, origins, Origin(p, rows.Length))
    ensures aborted ==> exists k | 0 <= k < |rows0| :: rows0[k].name.Some? && DividesByZero(cfg, rows0[k])
  {
    sums, out, aborted, origins := sums0, out0, false, origins0;
    RowStateOnlyCleared(cfg, channels, rows0, rows[..], Origin(p, 0));
    var i := 0;
    while i < rows.Length
      invariant 0 <= i <= rows.Length
      invariant RowState(cfg, channels, rows0, rows[..], Origin(p, i))
      invariant Emitted(cfg, channels, rows0, out, origins, Origin(p, i))
      invariant Covered(cfg, channels, rows0, origins, Origin(p, i))
      invariant sums == Tally(out)
      invariant CdpOnlyCleared(cdp0, cdp[..]) && LldpOnlyCleared(lldp0, lldp[..])
    {
      sums, out, aborted, origins := VisitRow(cfg, channels, p, name, rows, cdp, lldp, i,
                                              rows0, cdp0, lldp0, sums, out, origins);
      if aborted {
        EmittedLater(cfg, channels, rows0, out, origins, Origin(p, i + 1), Origin(p, rows.Length));
        return;
      }
      i := i + 1;
    }
  }

  /** The position standing for the second pass. */
  function Standalone(channels: seq<Channel>): Pos {
    Pos(|channels|, 0)
  }

  /** What the second pass finds at row i: a row that still has a name is as read, and
      either it is named nowhere in the first pass and its home is here, or if_counter
      already raised an AttributeError on it. */
  lemma StandaloneFacts(cfg: Config, channels: seq<Channel>, rows0: seq<Row>, rows: seq<Row>,
                        origins: seq<Origin>, i: nat)
    requires i < |rows0|
    requires RowState(cfg, channels, rows0, rows, Origin(Standalone(channels), i))
    requires Covered(cfg, channels, rows0, origins, Origin(Standalone(channels), i))
    ensures Home(channels, rows0, i) == Some(Origin(Standalone(channels), i)) ==>
              rows[i] == rows0[i] && rows0[i].name.Some? && !Matched(channels, rows0[i])
    ensures rows[i].name.Some? ==> rows[i] == rows0[i]
    ensures rows[i].name.Some? && Matched(channels, rows0[i]) ==>
              !Returns(cfg, rows0[i]) && !DividesByZero(cfg, rows0[i])
  {
    if rows0[i].name.Some? {
      var fm := FirstMention(channels, rows0[i].name.value, 0);
      if fm.Some? {
        assert NameAt(channels, fm.value).Some?;
        assert Processed(channels, rows0, i, Origin(Standalone(channels), i));
      }
    }
  }

  /** Row i of the second pass: every row that still has a name is handed to if_counter,
      its line printed when it renders and the sums kept; nothing is cleared. */
  method VisitStandalone(cfg: Config, channels: seq<Channel>, rows: array<Row>,
                         cdp: array<CdpRow>, lldp: array<LldpRow>, i: nat,
                         ghost rows0: seq<Row>, ghost cdp0: seq<CdpRow>, ghost lldp0: seq<LldpRow>,
                         sums0: Totals, out0: seq<Line>, ghost origins0: seq<Origin>)
    returns (sums: Totals, out: seq<Line>, aborted: bool, ghost origins: seq<Origin>)
    requires i < rows.Length
    requires RowState(cfg, channels, rows0, rows[..], Origin(Standalone(channels), i))
    requires Emitted(cfg, channels, rows0, out0, origins0, Origin(Standalone(channels), i))
    requires Covered(cfg, channels, rows0, origins0, Origin(Standalone(channels), i))
    requires sums0 == Tally(out0)
    requires CdpOnlyCleared(cdp0, cdp[..]) && LldpOnlyCleared(lldp0, lldp[..])
    modifies cdp, lldp
    ensures Emitted(cfg, channels, rows0, out, origins, Origin(Standalone(channels), i + 1))
    ensures sums == Tally(out)
    ensures CdpOnlyCleared(cdp0, cdp[..]) && LldpOnlyCleared(lldp0, lldp[..])
    ensures !aborted ==> RowState(cfg, channels, rows0, rows[..], Origin(Standalone(channels), i + 1))
    ensures !aborted ==> Covered(cfg, channels, rows0, origins, Origin(Standalone(channels), i + 1))
    ensures aborted ==> rows0[i].name.Some? && DividesByZero(cfg, rows0[i])
  {
    var p := Standalone(channels);
    sums, out, aborted, origins := sums0, out0, false, origins0;
    EmittedKeep(cfg, channels, rows0, out, origins, p, i);
    StandaloneFacts(cfg, channels, rows0, rows[..], origins, i);
    if rows[i].name.None? {
      KeepRow(cfg, channels, rows0, rows[..], out, origins, p, i);
      return;
    }
    var step, neighbor := CountKept(cfg, rows[i].name.value, rows[i], sums, cdp, lldp, cdp0, lldp0);
    if step.ZeroDivisionError? {
      aborted := true;
      return;
    }
    if step.AttributeError? {
      KeepRow(cfg, channels, rows0, rows[..], out, origins, p, i);
      return;
    }
    assert Home(channels, rows0, i) == Some(Origin(p, i));
    sums, out, origins := RecordStandalone(cfg, channels, rows[..], i, rows0, step, neighbor, sums, out, origins);
  }

  /** The rest of if_counter's normal return at row i of the second pass: print the line
      if there is one and keep the sums; the row is not cleared. */
  method RecordStandalone(cfg: Config, channels: seq<Channel>, ghost rows: seq<Row>, i: nat,
                          ghost rows0: seq<Row>, step: Step, neighbor: Option<string>,
                          sums0: Totals, out0: seq<Line>, ghost origins0: seq<Origin>)
    returns (sums: Totals, out: seq<Line>, ghost origins: seq<Origin>)
    requires i < |rows0| && rows0[i].name.Some?
    requires Home(channels, rows0, i) == Some(Origin(Standalone(channels), i))
    requires step.Returned? && !DividesByZero(cfg, rows0[i]) && (step.view.Some? <==> Renders(cfg, rows0[i]))
    requires step.view.Some? ==> step.view.value == ViewOf(cfg, rows0[i].name.value, rows0[i])
    requires step.totals == if step.view.None? then sums0
                            else Totals(sums0.rx + step.view.value.rxBits, sums0.tx + step.view.value.txBits)
    requires neighbor.Some? <==> Renders(cfg, rows0[i]) && WantsNeighbor(cfg)
    requires RowState(cfg, channels, rows0, rows, Origin(Standalone(channels), i))
    requires Emitted(cfg, channels, rows0, out0, origins0, Origin(Standalone(channels), i))
    requires Covered(cfg, channels, rows0, origins0, Origin(Standalone(channels), i))
    requires sums0 == Tally(out0)
    ensures RowState(cfg, channels, rows0, rows, Origin(Standalone(channels), i + 1))
    ensures Emitted(cfg, channels, rows0, out, origins, Origin(Standalone(channels), i + 1))
    ensures Covered(cfg, channels, rows0, origins, Origin(Standalone(channels), i + 1))
    ensures sums == Tally(out)
  {
    var p := Standalone(channels);
    if step.view.Some? {
      var line := Line(StandaloneRow, step.view.value, neighbor);
      sums, out, origins := Emit(cfg, channels, p, i, rows0, line, step.totals, sums0, out0, origins0);
    } else {
      sums, out, origins := sums0, out0, origins0;
      EmittedKeep(cfg, channels, rows0, out, origins, p, i);
      CoveredAdvance(cfg, channels, rows0, origins, origins, p, i);
    }
    RowStateKeep(cfg, channels, rows0, rows, p, i);
  }


  /** A scan ends where the next position's scan begins. */
  lemma EndOfScan(cfg: Config, channels: seq<Channel>, rows0: seq<Row>, rows: seq<Row>,
                  out: seq<Line>, origins: seq<Origin>, p: Pos)
    requires RowState(cfg, channels, rows0, rows, Origin(p, |rows0|))
    requires Emitted(cfg, channels, rows0, out, origins, Origin(p, |rows0|))
    requires Covered(cfg, channels, rows0, origins, Origin(p, |rows0|))
    ensures RowState(cfg, channels, rows0, rows, Origin(Pos(p.channel, p.slot + 1), 0))
    ensures Emitted(cfg, channels, rows0, out, origins, Origin(Pos(p.channel, p.slot + 1), 0))
    ensures Covered(cfg, channels, rows0, origins, Origin(Pos(p.channel, p.slot + 1), 0))
  {
    assert forall k | 0 <= k < |rows0| ::
      Processed(channels, rows0, k, Origin(p, |rows0|)) == Processed(channels, rows0, k, Origin(Pos(p.channel, p.slot + 1), 0));
  }

  /** Passing over positions that name nothing keeps every invariant. */
  lemma Skip(cfg: Config, channels: seq<Channel>, rows0: seq<Row>, rows: seq<Row>,
             out: seq<Line>, origins: seq<Origin>, a: Pos, b: Pos)
    requires PosBefore(a, b)
    requires b.channel < |channels| || b == Pos(|channels|, 0)
    requires forall p: Pos | !PosBefore(p, a) && PosBefore(p, b) :: NameAt(channels, p).None?
    requires RowState(cfg, channels, rows0, rows, Origin(a, 0))
    requires Emitted(cfg, channels, rows0, out, origins, Origin(a, 0))
    requires Covered(cfg, channels, rows0, origins, Origin(a, 0))
    ensures RowState(cfg, channels, rows0, rows, Origin(b, 0))
    ensures Emitted(cfg, channels, rows0, out, origins, Origin(b, 0))
    ensures Covered(cfg, channels, rows0, origins, Origin(b, 0))
  {
    SkipPositions(cfg, channels, rows0, origins, a, b);
  }

  /** At the end of the second pass every row with a name has been handed to if_counter. */
  lemma AllProcessed(channels: seq<Channel>, rows0: seq<Row>)
    ensures forall k | 0 <= k < |rows0| && rows0[k].name.Some? ::
              Processed(channels, rows0, k, Origin(Standalone(channels), |rows0|))
  {
    forall k | 0 <= k < |rows0| && rows0[k].name.Some?
      ensures Processed(channels, rows0, k, Origin(Standalone(channels), |rows0|))
    {
      var fm := FirstMention(channels, rows0[k].name.value, 0);
      if fm.Some? {
        assert NameAt(channels, fm.value).Some?;
      }
    }
  }

  /** Each interface row is printed at most once: origins in visiting order name
      different rows. */
  lemma DistinctSources(cfg: Config, channels: seq<Channel>, rows0: seq<Row>, out: seq<Line>, origins: seq<Origin>, cur: Origin)
    requires Emitted(cfg, channels, rows0, out, origins, cur)
    ensures forall j, j' | 0 <= j < j' < |origins| :: origins[j].src != origins[j'].src
  {
    forall j, j' | 0 <= j < j' < |origins|
      ensures origins[j].src != origins[j'].src
    {
      assert LineFrom(cfg, channels, rows0, out[j], origins[j]);
      assert LineFrom(cfg, channels, rows0, out[j'], origins[j']);
    }
  }

  /** A member without a port name is passed over. */
  lemma SkipMember(cfg: Config, channels: seq<Channel>, rows0: seq<Row>, rows: seq<Row>,
                   out: seq<Line>, origins: seq<Origin>, c: nat, m: nat)
    requires c < |channels| && m < |channels[c].members| && channels[c].members[m].None?
    requires RowState(cfg, channels, rows0, rows, Origin(Pos(c, m + 1), 0))
    requires Emitted(cfg, channels, rows0, out, origins, Origin(Pos(c, m + 1), 0))
    requires Covered(cfg, channels, rows0, origins, Origin(Pos(c, m + 1), 0))
    ensures RowState(cfg, channels, rows0, rows, Origin(Pos(c, m + 2), 0))
    ensures Emitted(cfg, channels, rows0, out, origins, Origin(Pos(c, m + 2), 0))
    ensures Covered(cfg, channels, rows0, origins, Origin(Pos(c, m + 2), 0))
  {
    forall p: Pos | !PosBefore(p, Pos(c, m + 1)) && PosBefore(p, Pos(c, m + 2))
      ensures NameAt(channels, p).None?
    {
      assert p == Pos(c, m + 1);
    }
    Skip(cfg, channels, rows0, rows, out, origins, Pos(c, m + 1), Pos(c, m + 2));
  }

  /** Member m of port-channel c: the rows named by its port are scanned; a member
      without a port name is skipped. */
  method ScanMember(cfg: Config, channels: seq<Channel>, c: nat, m: nat,
                    rows: array<Row>, cdp: array<CdpRow>, lldp: array<LldpRow>,
                    ghost rows0: seq<Row>, ghost cdp0: seq<CdpRow>, ghost lldp0: seq<LldpRow>,
                    sums0: Totals, out0: seq<Line>, ghost origins0: seq<Origin>)
    returns (sums: Totals, out: seq<Line>, aborted: bool, ghost origins: seq<Origin>)
    requires c < |channels| && channels[c].name.Some? && m < |channels[c].members| && |rows0| == rows.Length
    requires RowState(cfg, channels, rows0, rows[..], Origin(Pos(c, m + 1), 0))
    requires Emitted(cfg, channels, rows0, out0, origins0, Origin(Pos(c, m + 1), 0))
    requires Covered(cfg, channels, rows0, origins0, Origin(Pos(c, m + 1), 0))
    requires sums0 == Tally(out0)
    requires CdpOnlyCleared(cdp0, cdp[..]) && LldpOnlyCleared(lldp0, lldp[..])
    modifies rows, cdp, lldp
    ensures Emitted(cfg, channels, rows0, out, origins, Origin(Pos(c, m + 2), 0))
    ensures sums == Tally(out)
    ensures OnlyCleared(rows0, rows[..])
    ensures CdpOnlyCleared(cdp0, cdp[..]) && LldpOnlyCleared(lldp0, lldp[..])
    ensures !aborted ==> RowState(cfg, channels, rows0, rows[..], Origin(Pos(c, m + 2), 0))
    ensures !aborted ==> Covered(cfg, channels, rows0, origins, Origin(Pos(c, m + 2), 0))
    ensures aborted ==> exists k | 0 <= k < |rows0| :: rows0[k].name.Some? && DividesByZero(cfg, rows0[k])
  {
    sums, out, aborted, origins := sums0, out0, false, origins0;
    var p := Pos(c, m + 1);
    var member := channels[c].members[m];
    if member.None? {
      SkipMember(cfg, channels, rows0, rows[..], out, origins, c, m);
      RowStateOnlyCleared(cfg, channels, rows0, rows[..], Origin(Pos(c, m + 2), 0));
      return;
    }
    assert Pos(p.channel, p.slot + 1) == Pos(c, m + 2);
    sums, out, aborted, origins := ScanAt(cfg, channels, p, member.value, rows, cdp, lldp,
                                          rows0, cdp0, lldp0, sums, out, origins);
  }

  /** The first pass over the members of port-channel c, in their order. */
  method ScanMembers(cfg: Config, channels: seq<Channel>, c: nat,
                     rows: array<Row>, cdp: array<CdpRow>, lldp: array<LldpRow>,
                     ghost rows0: seq<Row>, ghost cdp0: seq<CdpRow>, ghost lldp0: seq<LldpRow>,
                     sums0: Totals, out0: seq<Line>, ghost origins0: seq<Origin>)
    returns (sums: Totals, out: seq<Line>, aborted: bool, ghost origins: seq<Origin>)
    requires c < |channels| && channels[c].name.Some? && |rows0| == rows.Length
    requires RowState(cfg, channels, rows0, rows[..], Origin(Pos(c, 1), 0))
    requires Emitted(cfg, channels, rows0, out0, origins0, Origin(Pos(c, 1), 0))
    requires Covered(cfg, channels, rows0, origins0, Origin(Pos(c, 1), 0))
    requires sums0 == Tally(out0)
    requires CdpOnlyCleared(cdp0, cdp[..]) && LldpOnlyCleared(lldp0, lldp[..])
    modifies rows, cdp, lldp
    ensures sums == Tally(out)
    ensures OnlyCleared(rows0, rows[..])
    ensures CdpOnlyCleared(cdp0, cdp[..]) && LldpOnlyCleared(lldp0, lldp[..])
    ensures Emitted(cfg, channels, rows0, out, origins, Origin(Pos(c, |channels[c].members| + 1), 0))
    ensures !aborted ==> RowState(cfg, channels, rows0, rows[..], Origin(Pos(c, |channels[c].members| + 1), 0))
    ensures !aborted ==> Covered(cfg, channels, rows0, origins, Origin(Pos(c, |channels[c].members| + 1), 0))
    ensures aborted ==> exists k | 0 <= k < |rows0| :: rows0[k].name.Some? && DividesByZero(cfg, rows0[k])
  {
    sums, out, aborted, origins := sums0, out0, false, origins0;
    RowStateOnlyCleared(cfg, channels, rows0, rows[..], Origin(Pos(c, 1), 0));
    var m := 0;
    while m < |channels[c].members|
      invariant 0 <= m <= |channels[c].members|
      invariant RowState(cfg, channels, rows0, rows[..], Origin(Pos(c, m + 1), 0))
      invariant Emitted(cfg, channels, rows0, out, origins, Origin(Pos(c, m + 1), 0))
      invariant Covered(cfg, channels, rows0, origins, Origin(Pos(c, m + 1), 0))
      invariant sums == Tally(out)
      invariant CdpOnlyCleared(cdp0, cdp[..]) && LldpOnlyCleared(lldp0, lldp[..])
    {
      ghost var next := Origin(Pos(c, m + 2), 0);
      sums, out, aborted, origins := ScanMember(cfg, channels, c, m, rows, cdp, lldp, rows0, cdp0, lldp0, sums, out, origins);
      if aborted {
        EmittedLater(cfg, channels, rows0, out, origins, next, Origin(Pos(c, |channels[c].members| + 1), 0));
        return;
      }
      m := m + 1;
      assert next == Origin(Pos(c, m + 1), 0);
    }
    RowStateOnlyCleared(cfg, channels, rows0, rows[..], Origin(Pos(c, m + 1), 0));
  }

  /** The scan for the name at position p, from the first interface row to the
      start of the next position. */
  method ScanAt(cfg: Config, channels: seq<Channel>, p: Pos, name: string,
                rows: array<Row>, cdp: array<CdpRow>, lldp: array<LldpRow>,
                ghost rows0: seq<Row>, ghost cdp0: seq<CdpRow>, ghost lldp0: seq<LldpRow>,
                sums0: Totals, out0: seq<Line>, ghost origins0: seq<Origin>)
    returns (sums: Totals, out: seq<Line>, aborted: bool, ghost origins: seq<Origin>)
    requires NameAt(channels, p) == Some(name) && |rows0| == rows.Length
    requires RowState(cfg, channels, rows0, rows[..], Origin(p, 0))
    requires Emitted(cfg, channels, rows0, out0, origins0, Origin(p, 0))
    requires Covered(cfg, channels, rows0, origins0, Origin(p, 0))
    requires sums0 == Tally(out0)
    requires CdpOnlyCleared(cdp0, cdp[..]) && LldpOnlyCleared(lldp0, lldp[..])
    modifies rows, cdp, lldp
    ensures Emitted(cfg, channels, rows0, out, origins, Origin(Pos(p.channel, p.slot + 1), 0))
    ensures sums == Tally(out)
    ensures OnlyCleared(rows0, rows[..])
    ensures CdpOnlyCleared(cdp0, cdp[..]) && LldpOnlyCleared(lldp0, lldp[..])
    ensures !aborted ==> RowState(cfg, channels, rows0, rows[..], Origin(Pos(p.channel, p.slot + 1), 0))
    ensures !aborted ==> Covered(cfg, channels, rows0, origins, Origin(Pos(p.channel, p.slot + 1), 0))
    ensures aborted ==> exists k | 0 <= k < |rows0| :: rows0[k].name.Some? && DividesByZero(cfg, rows0[k])
  {
    sums, out, aborted, origins := ScanRows(cfg, channels, p, name, rows, cdp, lldp,
                                            rows0, cdp0, lldp0, sums0, out0, origins0);
    if aborted {
      EmittedLater(cfg, channels, rows0, out, origins, Origin(p, rows.Length), Origin(Pos(p.channel, p.slot + 1), 0));
      return;
    }
    EndOfScan(cfg, channels, rows0, rows[..], out, origins, p);
  }

  /** A port-channel with a name: its own row, then its members. */
  method ScanNamedChannel(cfg: Config, channels: seq<Channel>, c: nat,
                          rows: array<Row>, cdp: array<CdpRow>, lldp: array<LldpRow>,
                          ghost rows0: seq<Row>, ghost cdp0: seq<CdpRow>, ghost lldp0: seq<LldpRow>,
                          sums0: Totals, out0: seq<Line>, ghost origins0: seq<Origin>)
    returns (sums: Totals, out: seq<Line>, aborted: bool, ghost origins: seq<Origin>)
    requires c < |channels| && channels[c].name.Some? && |rows0| == rows.Length
    requires RowState(cfg, channels, rows0, rows[..], Origin(Pos(c, 0), 0))
    requires Emitted(cfg, channels, rows0, out0, origins0, Origin(Pos(c, 0), 0))
    requires Covered(cfg, channels, rows0, origins0, Origin(Pos(c, 0), 0))
    requires sums0 == Tally(out0)
    requires CdpOnlyCleared(cdp0, cdp[..]) && LldpOnlyCleared(lldp0, lldp[..])
    modifies rows, cdp, lldp
    ensures Emitted(cfg, channels, rows0, out, origins, Origin(Pos(c, |channels[c].members| + 1), 0))
    ensures sums == Tally(out)
    ensures OnlyCleared(rows0, rows[..])
    ensures CdpOnlyCleared(cdp0, cdp[..]) && LldpOnlyCleared(lldp0, lldp[..])
    ensures !aborted ==> RowState(cfg, channels, rows0, rows[..], Origin(Pos(c, |channels[c].members| + 1), 0))
    ensures !aborted ==> Covered(cfg, channels, rows0, origins, Origin(Pos(c, |channels[c].members| + 1), 0))
    ensures aborted ==> exists k | 0 <= k < |rows0| :: rows0[k].name.Some? && DividesByZero(cfg, rows0[k])
  {
    var own := Pos(c, 0);
    assert Pos(own.channel, own.slot + 1) == Pos(c, 1);
    sums, out, aborted, origins := ScanAt(cfg, channels, own, channels[c].name.value, rows, cdp, lldp,
                                          rows0, cdp0, lldp0, sums0, out0, origins0);
    if aborted {
      EmittedLater(cfg, channels, rows0, out, origins, Origin(Pos(c, 1), 0),
                   Origin(Pos(c, |channels[c].members| + 1), 0));
      return;
    }
    sums, out, aborted, origins := ScanMembers(cfg, channels, c, rows, cdp, lldp, rows0, cdp0, lldp0, sums, out, origins);
  }

  /** The first pass over port-channel c, from its own row to its last member. */
  method ScanChannel(cfg: Config, channels: seq<Channel>, c: nat,
                     rows: array<Row>, cdp: array<CdpRow>, lldp: array<LldpRow>,
                     ghost rows0: seq<Row>, ghost cdp0: seq<CdpRow>, ghost lldp0: seq<LldpRow>,
                     sums0: Totals, out0: seq<Line>, ghost origins0: seq<Origin>)
    returns (sums: Totals, out: seq<Line>, aborted: bool, ghost origins: seq<Origin>)
    requires c < |channels| && |rows0| == rows.Length
    requires RowState(cfg, channels, rows0, rows[..], Origin(Pos(c, 0), 0))
    requires Emitted(cfg, channels, rows0, out0, origins0, Origin(Pos(c, 0), 0))
    requires Covered(cfg, channels, rows0, origins0, Origin(Pos(c, 0), 0))
    requires sums0 == Tally(out0)
    requires CdpOnlyCleared(cdp0, cdp[..]) && LldpOnlyCleared(lldp0, lldp[..])
    modifies rows, cdp, lldp
    ensures Emitted(cfg, channels, rows0, out, origins, Origin(Pos(c + 1, 0), 0))
    ensures sums == Tally(out)
    ensures OnlyCleared(rows0, rows[..])
    ensures CdpOnlyCleared(cdp0, cdp[..]) && LldpOnlyCleared(lldp0, lldp[..])
    ensures !aborted ==> RowState(cfg, channels, rows0, rows[..], Origin(Pos(c + 1, 0), 0))
    ensures !aborted ==> Covered(cfg, channels, rows0, origins, Origin(Pos(c + 1, 0), 0))
    ensures aborted ==> exists k | 0 <= k < |rows0| :: rows0[k].name.Some? && DividesByZero(cfg, rows0[k])
  {
    sums, out, aborted, origins := sums0, out0, false, origins0;
    RowStateOnlyCleared(cfg, channels, rows0, rows[..], Origin(Pos(c, 0), 0));
    var next := if c + 1 < |channels| then Pos(c + 1, 0) else Standalone(channels);
    if channels[c].name.None? {
      Skip(cfg, channels, rows0, rows[..], out, origins, Pos(c, 0), next);
      return;
    }
    sums, out, aborted, origins := ScanNamedChannel(cfg, channels, c, rows, cdp, lldp, rows0, cdp0, lldp0, sums, out, origins);
    EmittedLater(cfg, channels, rows0, out, origins, Origin(Pos(c, |channels[c].members| + 1), 0), Origin(Pos(c + 1, 0), 0));
    if aborted {
      return;
    }
    var members := channels[c].members;
    Skip(cfg, channels, rows0, rows[..], out, origins, Pos(c, |members| + 1), next);
    RowStateOnlyCleared(cfg, channels, rows0, rows[..], Origin(next, 0));
  }

  /** What Run promises, from the invariants at the cursor it stops at. */
  lemma Finish(cfg: Config, channels: seq<Channel>, rows0: seq<Row>, rows: seq<Row>,
               out: seq<Line>, origins: seq<Origin>, cur: Origin, aborted: bool)
    requires Emitted(cfg, channels, rows0, out, origins, cur)
    requires OnlyCleared(rows0, rows)
    requires !aborted ==> cur == Origin(Standalone(channels), |rows0|)
    requires !aborted ==> RowState(cfg, channels, rows0, rows, cur) && Covered(cfg, channels, rows0, origins, cur)
    ensures forall j, j' | 0 <= j < j' < |origins| :: origins[j].src != origins[j'].src
    ensures !aborted ==> forall k | 0 <= k < |rows0| :: !(rows0[k].name.Some? && DividesByZero(cfg, rows0[k]))
    ensures !aborted ==> Sources(origins) == set k | 0 <= k < |rows0| && Shown(cfg, rows0[k])
    ensures !aborted ==> forall k | 0 <= k < |rows0| ::
              rows[k] == if Matched(channels, rows0[k]) && Returns(cfg, rows0[k]) then Cleared else rows0[k]
  {
    DistinctSources(cfg, channels, rows0, out, origins, cur);
    if !aborted {
      AllProcessed(channels, rows0);
      forall x | x in Sources(origins) ensures x < |rows0| && Shown(cfg, rows0[x]) {
        var j :| 0 <= j < |origins| && origins[j].src == x;
        assert LineFrom(cfg, channels, rows0, out[j], origins[j]);
      }
    }
  }

  /** The second pass: every interface row, in order. */
  method ScanStandalone(cfg: Config, channels: seq<Channel>,
                        rows: array<Row>, cdp: array<CdpRow>, lldp: array<LldpRow>,
                        ghost rows0: seq<Row>, ghost cdp0: seq<CdpRow>, ghost lldp0: seq<LldpRow>,
                        sums0: Totals, out0: seq<Line>, ghost origins0: seq<Origin>)
    returns (sums: Totals, out: seq<Line>, aborted: bool, ghost origins: seq<Origin>)
    requires RowState(cfg, channels, rows0, rows[..], Origin(Standalone(channels), 0))
    requires Emitted(cfg, channels, rows0, out0, origins0, Origin(Standalone(channels), 0))
    requires Covered(cfg, channels, rows0, origins0, Origin(Standalone(channels), 0))
    requires sums0 == Tally(out0)
    requires CdpOnlyCleared(cdp0, cdp[..]) && LldpOnlyCleared(lldp0, lldp[..])
    modifies cdp, lldp
    ensures sums == Tally(out)
    ensures CdpOnlyCleared(cdp0, cdp[..]) && LldpOnlyCleared(lldp0, lldp[..])
    ensures Emitted(cfg, channels, rows0, out, origins, Origin(Standalone(channels), rows.Length))
    ensures !aborted ==> Covered(cfg, channels, rows0, origins, Origin(Standalone(channels), rows.Length))
    ensures aborted ==> exists k | 0 <= k < |rows0| :: rows0[k].name.Some? && DividesByZero(cfg, rows0[k])
  {
    sums, out, aborted, origins := sums0, out0, false, origins0;
    var i := 0;
    while i < rows.Length
      invariant 0 <= i <= rows.Length
      invariant RowState(cfg, channels, rows0, rows[..], Origin(Standalone(channels), i))
      invariant Emitted(cfg, channels, rows0, out, origins, Origin(Standalone(channels), i))
      invariant Covered(cfg, channels, rows0, origins, Origin(Standalone(channels), i))
      invariant sums == Tally(out)
      invariant CdpOnlyCleared(cdp0, cdp[..]) && LldpOnlyCleared(lldp0, lldp[..])
    {
      sums, out, aborted, origins := VisitStandalone(cfg, channels, rows, cdp, lldp, i, rows0, cdp0, lldp0, sums, out, origins);
      if aborted {
        EmittedLater(cfg, channels, rows0, out, origins, Origin(Standalone(channels), i + 1),
                     Origin(Standalone(channels), rows.Length));
        return;
      }
      i := i + 1;
    }
  }

  /** Before the first pass nothing has been handed to if_counter. */
  lemma StartState(cfg: Config, channels: seq<Channel>, rows0: seq<Row>)
    ensures RowState(cfg, channels, rows0, rows0, Origin(Pos(0, 0), 0))
    ensures Emitted(cfg, channels, rows0, [], [], Origin(Pos(0, 0), 0))
    ensures Covered(cfg, channels, rows0, [], Origin(Pos(0, 0), 0))
    ensures Tally([]) == Totals(0, 0)
  {
  }

  /** The first pass: every port-channel in order. */
  method FirstPass(cfg: Config, channels: seq<Channel>, rows: array<Row>, cdp: array<CdpRow>, lldp: array<LldpRow>,
                   ghost rows0: seq<Row>, ghost cdp0: seq<CdpRow>, ghost lldp0: seq<LldpRow>)
    returns (sums: Totals, out: seq<Line>, aborted: bool, ghost origins: seq<Origin>)
    requires rows[..] == rows0 && cdp[..] == cdp0 && lldp[..] == lldp0
    modifies rows, cdp, lldp
    ensures sums == Tally(out)
    ensures OnlyCleared(rows0, rows[..])
    ensures CdpOnlyCleared(cdp0, cdp[..]) && LldpOnlyCleared(lldp0, lldp[..])
    ensures Emitted(cfg, channels, rows0, out, origins, Origin(Standalone(channels), 0))
    ensures !aborted ==> RowState(cfg, channels, rows0, rows[..], Origin(Standalone(channels), 0))
    ensures !aborted ==> Covered(cfg, channels, rows0, origins, Origin(Standalone(channels), 0))
    ensures aborted ==> exists k | 0 <= k < |rows0| :: rows0[k].name.Some? && DividesByZero(cfg, rows0[k])
  {
    StartState(cfg, channels, rows0);
    sums, out, aborted, origins := Totals(0, 0), [], false, [];
    var c := 0;
    while c < |channels|
      invariant 0 <= c <= |channels|
      invariant RowState(cfg, channels, rows0, rows[..], Origin(Pos(c, 0), 0))
      invariant Emitted(cfg, channels, rows0, out, origins, Origin(Pos(c, 0), 0))
      invariant Covered(cfg, channels, rows0, origins, Origin(Pos(c, 0), 0))
      invariant sums == Tally(out)
      invariant CdpOnlyCleared(cdp0, cdp[..]) && LldpOnlyCleared(lldp0, lldp[..])
    {
      sums, out, aborted, origins := ScanChannel(cfg, channels, c, rows, cdp, lldp, rows0, cdp0, lldp0, sums, out, origins);
      if aborted {
        EmittedLater(cfg, channels, rows0, out, origins, Origin(Pos(c + 1, 0), 0), Origin(Standalone(channels), 0));
        return;
      }
      c := c + 1;
    }
    RowStateOnlyCleared(cfg, channels, rows0, rows[..], Origin(Pos(c, 0), 0));
  }

  /** The whole table: the first pass over the port-channels, then the second pass over
      all interface rows. Each printed line comes from the interface row at its origin,
      which is where the program first meets that row; lines are in visiting order and
      no row is printed twice. Unless a zero bandwidth stopped the run, exactly the rows
      that render are printed. The sums are those of the member and standalone lines,
      so the summary's Mbps are the sums of their Mbps columns.
      A row named in the first pass on which if_counter returns is cleared; the
      neighbour tables only lose the entries that were used. */
  method Run(cfg: Config, channels: seq<Channel>, rows: array<Row>, cdp: array<CdpRow>, lldp: array<LldpRow>)
    returns (out: seq<Line>, totals: Totals, aborted: bool, ghost origins: seq<Origin>)
    modifies rows, cdp, lldp
    ensures |origins| == |out|
    ensures forall j | 0 <= j < |out| :: LineFrom(cfg, channels, old(rows[..]), out[j], origins[j])
    ensures forall j, j' | 0 <= j < j' < |origins| :: Precedes(origins[j], origins[j'])
    ensures forall j, j' | 0 <= j < j' < |origins| :: origins[j].src != origins[j'].src
    ensures totals == Tally(out)
    ensures Mbps(totals.rx) == RateSum(out, true) && Mbps(totals.tx) == RateSum(out, false)
    ensures aborted <==> exists k | 0 <= k < rows.Length :: old(rows[k]).name.Some? && DividesByZero(cfg, old(rows[k]))
    ensures !aborted ==> Sources(origins) == set k | 0 <= k < rows.Length && Shown(cfg, old(rows[k]))
    ensures !aborted ==> forall k | 0 <= k < rows.Length ::
              rows[k] == if Matched(channels, old(rows[k])) && Returns(cfg, old(rows[k])) then Cleared else old(rows[k])
    ensures forall k | 0 <= k < rows.Length :: rows[k] == old(rows[k]) || rows[k] == Cleared
    ensures forall j | 0 <= j < cdp.Length :: cdp[j] == old(cdp[j]) || cdp[j] == ClearedCdp
    ensures forall j | 0 <= j < lldp.Length :: lldp[j] == old(lldp[j]) || lldp[j] == ClearedLldp
  {
    ghost var rows0, cdp0, lldp0 := rows[..], cdp[..], lldp[..];
    assert forall k | 0 <= k < rows.Length :: old(rows[k]) == rows0[k];
    totals, out, aborted, origins := FirstPass(cfg, channels, rows, cdp, lldp, rows0, cdp0, lldp0);
    if aborted {
      Finish(cfg, channels, rows0, rows[..], out, origins, Origin(Standalone(channels), 0), aborted);
      SummaryRates(out);
      return;
    }
    totals, out, aborted, origins := ScanStandalone(cfg, channels, rows, cdp, lldp, rows0, cdp0, lldp0, totals, out, origins);
    RowStateOnlyCleared(cfg, channels, rows0, rows[..], Origin(Standalone(channels), 0));
    Finish(cfg, channels, rows0, rows[..], out, origins, Origin(Standalone(channels), rows.Length), aborted);
    SummaryRates(out);
  }

  /** The older script's configuration: its -d and -u switches, no remove-list, and no
      neighbour tables. */
  function N9kConfig(descOnly: bool, upOnly: bool): Config {
    Config(N9k, Flags(descOnly, upOnly, false, false), [], false, false)
  }

  /** n9k_ifrate.py's main program: the same two passes, with the older if_counter. Its
      lines never carry a neighbour or discard counters. */
  method RunN9k(channels: seq<Channel>, rows: array<Row>, descOnly: bool, upOnly: bool)
    returns (out: seq<Line>, totals: Totals, aborted: bool, ghost origins: seq<Origin>)
    modifies rows
    ensures |origins| == |out|
    ensures forall j | 0 <= j < |out| ::
              LineFrom(N9kConfig(descOnly, upOnly), channels, old(rows[..]), out[j], origins[j])
              && out[j].neighbor.None? && out[j].view.discards.None?
    ensures forall j, j' | 0 <= j < j' < |origins| :: Precedes(origins[j], origins[j'])
    ensures totals == Tally(out)
    ensures Mbps(totals.rx) == RateSum(out, true) && Mbps(totals.tx) == RateSum(out, false)
    ensures aborted <==> exists k | 0 <= k < rows.Length ::
              old(rows[k]).name.Some? && DividesByZero(N9kConfig(descOnly, upOnly), old(rows[k]))
    ensures !aborted ==> Sources(origins) == set k | 0 <= k < rows.Length && Shown(N9kConfig(descOnly, upOnly), old(rows[k]))
    ensures !aborted ==> forall k | 0 <= k < rows.Length ::
              rows[k] == if Matched(channels, old(rows[k])) && Returns(N9kConfig(descOnly, upOnly), old(rows[k]))
                         then Cleared else old(rows[k])
    ensures forall k | 0 <= k < rows.Length :: rows[k] == old(rows[k]) || rows[k] == Cleared
  {
    var cdp := new CdpRow[0];
    var lldp := new LldpRow[0];
    out, totals, aborted, origins := Run(N9kConfig(descOnly, upOnly), channels, rows, cdp, lldp);
  }
}
