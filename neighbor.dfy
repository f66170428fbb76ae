/**
 * Neighbour resolution of nx_ifrate.py: `getcdpnbor`, `getlldpnbor` and the
 * CDP-then-LLDP fallback inside `if_counter`. Both lookups scan their table
 * in order, take the first usable row, and clear that row, so it is consumed.
 */
module Neighbor {
  import opened Base
  import opened Text
  import opened NumericPath

  /** One `ROW_cdp_neighbor_brief_info` element; a missing child element is None. */
  datatype CdpRow = CdpRow(intfId: Option<string>, deviceId: Option<string>, portId: Option<string>)

  /** One `ROW_nbor` element of the LLDP neighbour table. */
  datatype LldpRow = LldpRow(localPortId: Option<string>, chassisId: Option<string>, portId: Option<string>)

  /** What `Element.clear()` leaves of a row: no child element at all. */
  const ClearedCdp := CdpRow(None, None, None)
  const ClearedLldp := LldpRow(None, None, None)

  /** The text shown when no neighbour is known. */
  const NoNeighbor := "---"

  /** The character class `[E,G,T]` (the comma is a member too). */
  const FamilyChars := {'E', ',', 'G', 'T'}

  /** The longest suffix of s made only of characters in `allowed`. */
  function TrailingRun(s: string, allowed: set<char>): (r: string)
    ensures |r| <= |s| && r == s[|s| - |r|..]
    ensures forall c | c in r :: c in allowed
    ensures |r| < |s| ==> s[|s| - |r| - 1] !in allowed
  {
    if s != [] && s[|s| - 1] in allowed then
      var r := TrailingRun(s[..|s| - 1], allowed) + [s[|s| - 1]];
      assert s == s[..|s| - 1] + [s[|s| - 1]];
      r
    else []
  }

  /** `re.findall('([E,G,T]).+', p)` joined: the leftmost character of `[E,G,T]` that has
      at least one character after it, or nothing (port names hold no line breaks). */
  function FamilyLetter(p: string): (r: string)
    ensures |r| <= 1
    ensures r == [] <==> forall i | 0 <= i < |p| - 1 :: p[i] !in FamilyChars
    ensures r != [] ==> r[0] in FamilyChars
    ensures r != [] ==> exists i | 0 <= i < |p| - 1 :: p[i] == r[0] && forall j | 0 <= j < i :: p[j] !in FamilyChars
  {
    if |p| < 2 then []
    else if p[0] in FamilyChars then [p[0]]
    else
      var r := FamilyLetter(p[1..]);
      assert forall i | 1 <= i < |p| - 1 :: p[i] == p[1..][i - 1];
      if r != [] then
        var i :| 0 <= i < |p[1..]| - 1 && p[1..][i] == r[0] && forall j | 0 <= j < i :: p[1..][j] !in FamilyChars;
        assert p[i + 1] == r[0] && forall j | 0 <= j < i + 1 :: p[j] !in FamilyChars;
        r
      else r
  }

  /** `re.findall('([0-9/:]*)$', p)` joined: the longest suffix of digits, slashes and colons. */
  function LldpPortPath(p: string): (r: string)
    ensures |r| <= |p| && r == p[|p| - |r|..]
    ensures forall c | c in r :: c in Digits || c == '/' || c == ':'
    ensures |r| < |p| ==> !(p[|p| - |r| - 1] in Digits || p[|p| - |r| - 1] in "/:")
  {
    TrailingRun(p, Digits + {'/', ':'})
  }

  /** `re.findall('(Eth).+', s)` is not empty: scanning from the left, some "Eth" has at
      least one character after it. */
  predicate HasEthTail(s: string)
    decreases |s|
  {
    |s| >= 4 && (s[..3] == "Eth" || HasEthTail(s[1..]))
  }

  /** "Eth" starts at position i of s and is followed by at least one character. */
  predicate EthAt(s: string, i: nat) {
    i + 4 <= |s| && s[i..i + 3] == "Eth"
  }

  /** The scan finds "Eth" with a character after it exactly when there is one. */
  lemma {:induction false} HasEthTailIff(s: string)
    ensures HasEthTail(s) <==> exists i :: EthAt(s, i)
    decreases |s|
  {
    if |s| >= 4 {
      HasEthTailIff(s[1..]);
      if s[..3] == "Eth" {
        assert s[0..3] == s[..3] && EthAt(s, 0);
      }
      forall i: nat | EthAt(s[1..], i) ensures EthAt(s, i + 1) {
        assert s[1..][i..i + 3] == s[i + 1..i + 4];
      }
      forall i: nat | EthAt(s, i) && i > 0 ensures EthAt(s[1..], i - 1) {
        assert s[1..][i - 1..i + 2] == s[i..i + 3];
      }
    }
  }

  /** The short form under which LLDP reports a local port: "Eth" when the name holds it
      (followed by a character), then the numeric path, so "Ethernet1/49" becomes
      "Eth1/49". It starts with "Eth" exactly when the name does hold it, and the rest
      is a suffix of the name made of digits and slashes. */
  function LocalShort(iface: string): (r: string)
    ensures HasEthTail(iface) <==> |r| >= 3 && r[..3] == "Eth"
    ensures var n := if HasEthTail(iface) then 3 else 0;
      n <= |r| && |r| - n <= |iface| && r[n..] == iface[|iface| - (|r| - n)..]
      && forall c | c in r[n..] :: c in Digits || c == '/'
  {
    var path := PortPath(iface);
    if HasEthTail(iface) then
      var r := "Eth" + path;
      assert r[..3] == "Eth" && r[3..] == path;
      r
    else
      NotEth(path);
      assert path[0..] == path;
      path
  }

  /** A string of digits and slashes does not start with "Eth". */
  lemma NotEth(path: string)
    requires forall c | c in path :: c in Digits || c == '/'
    ensures !(|path| >= 3 && path[..3] == "Eth")
  {
    if |path| >= 3 {
      assert path[0] in path;
    }
  }

  /** A name "<letters>n1/n2" whose letters start with "Eth" gets the short form
      "Eth" + "n1/n2". */
  lemma LocalShortTwoLevels(q: string, n1: string, n2: string)
    requires Boundary(q) && Number(n1) && Number(n2) && |q| >= 3 && q[..3] == "Eth"
    ensures LocalShort(q + n1 + "/" + n2) == "Eth" + n1 + "/" + n2
  {
    var s := q + n1 + "/" + n2;
    assert s[..3] == q[..3];
    assert HasEthTail(s);
    PortPathTwoLevels(q, n1, n2);
  }

  /** "Ethernet1/49" is reported by LLDP as "Eth1/49", so an LLDP row naming "Eth1/49",
      with a chassis id and a port id, answers for it. */
  lemma FrontPanelLocalShort(chassisId: string, portId: string)
    ensures LocalShort("Ethernet1/49") == "Eth1/49"
    ensures LldpUsable(LldpRow(Some("Eth1/49"), Some(chassisId), Some(portId)), "Ethernet1/49")
  {
    var iface := "Ethernet1/49";
    assert iface[..3] == "Eth";
    FrontPanelPort();
    assert LocalShort(iface) == "Eth" + "1/49" == "Eth1/49";
  }

  /** The CDP device id cut at the first "(" and then at the first ".": the longest
      prefix holding neither, so serial-number and domain suffixes are gone. */
  function CdpHost(deviceId: string): (h: string)
    ensures |h| <= |deviceId| && h == deviceId[..|h|]
    ensures '(' !in h && '.' !in h
    ensures |h| < |deviceId| ==> deviceId[|h|] == '(' || deviceId[|h|] == '.'
  {
    var noSerial := CutAt(deviceId, '(');
    var host := CutAt(noSerial, '.');
    assert forall c | c in host :: c in noSerial;
    host
  }

  /** The host name filtered by the remove-list: it still holds no "(" and no ".", and
      with an empty list it is the host name itself. */
  function CdpDevice(deviceId: string, rm: seq<string>): (d: string)
    ensures '(' !in d && '.' !in d
    ensures |d| <= |CdpHost(deviceId)|
    ensures rm == [] ==> d == CdpHost(deviceId)
  {
    RemoveAll(CdpHost(deviceId), rm)
  }

  /** A CDP row that answers for `iface`: its interface id is exactly `iface` and it has
      the device id and port id the result needs (a row without them raises and is passed over). */
  predicate CdpUsable(row: CdpRow, iface: string) {
    row.intfId == Some(iface) && row.deviceId.Some? && row.portId.Some?
  }

  /** `devid + "-" + if3` for a usable CDP row: the shortened device name, a dash, then
      at most one family letter and the port's numeric path. */
  function CdpEntry(row: CdpRow, rm: seq<string>): (r: string)
    requires row.deviceId.Some? && row.portId.Some?
    ensures var d := CdpDevice(row.deviceId.value, rm);
      && |d| < |r| <= |d| + 2 + |row.portId.value| && r[..|d|] == d && r[|d|] == '-'
      && forall i | |d| + 2 <= i < |r| :: r[i] in Digits || r[i] == '/'
  {
    CdpDevice(row.deviceId.value, rm) + "-" + FamilyLetter(row.portId.value) + PortPath(row.portId.value)
  }

  /** The first usable CDP row at or after `from`. */
  function FirstCdp(t: seq<CdpRow>, iface: string, from: nat): (k: Option<nat>)
    requires from <= |t|
    ensures k.Some? ==> from <= k.value < |t| && CdpUsable(t[k.value], iface)
    ensures k.Some? ==> forall j | from <= j < k.value :: !CdpUsable(t[j], iface)
    ensures k.None? ==> forall j | from <= j < |t| :: !CdpUsable(t[j], iface)
    decreases |t| - from
  {
    if from == |t| then None
    else if CdpUsable(t[from], iface) then Some(from)
    else FirstCdp(t, iface, from + 1)
  }

  /** What `getcdpnbor` returns: the entry of the first usable row, or "---". */
  function CdpLookup(t: seq<CdpRow>, iface: string, rm: seq<string>): string
  {
    match FirstCdp(t, iface, 0)
    case None => NoNeighbor
    case Some(k) => CdpEntry(t[k], rm)
  }

  /** The CDP table after `getcdpnbor`: the matched row cleared, every other row as it was. */
  function CdpConsumed(t: seq<CdpRow>, iface: string): (t': seq<CdpRow>)
    ensures |t'| == |t|
  {
    match FirstCdp(t, iface, 0)
    case None => t
    case Some(k) => t[k := ClearedCdp]
  }

  /** A later lookup for the same interface no longer sees the consumed row: it gets the
      next usable row after it. */
  lemma CdpConsumedOnce(t: seq<CdpRow>, iface: string, k: nat)
    requires FirstCdp(t, iface, 0) == Some(k)
    ensures FirstCdp(CdpConsumed(t, iface), iface, 0) == FirstCdp(t, iface, k + 1)
  {
    var t' := CdpConsumed(t, iface);
    assert !CdpUsable(t'[k], iface);
    assert forall j | 0 <= j <= k :: !CdpUsable(t'[j], iface);
    assert forall j | k < j < |t| :: t'[j] == t[j];
    var a, b := FirstCdp(t', iface, 0), FirstCdp(t, iface, k + 1);
    if a.Some? && b.Some? {
      assert !(a.value < b.value) && !(b.value < a.value);
    }
  }

  /** `getcdpnbor`: scan the CDP rows in order; on the first usable row build the result,
      clear the row and stop. */
  method GetCdpNeighbor(iface: string, cdp: array<CdpRow>, rm: seq<string>) returns (r: string)
    modifies cdp
    ensures r == CdpLookup(old(cdp[..]), iface, rm)
    ensures cdp[..] == CdpConsumed(old(cdp[..]), iface)
  {
    var k := 0;
    while k < cdp.Length && !(cdp[k].intfId == Some(iface) && cdp[k].deviceId.Some? && cdp[k].portId.Some?)
      invariant 0 <= k <= cdp.Length
      invariant forall j | 0 <= j < k :: !CdpUsable(cdp[j], iface)
    {
      k := k + 1;
    }
    if k == cdp.Length {
      assert FirstCdp(cdp[..], iface, 0).None?;
      return NoNeighbor;
    }
    assert FirstCdp(cdp[..], iface, 0) == Some(k);
    r := AnswerCdp(cdp, k, rm);
  }

  /** The body of the match in `getcdpnbor`: build the entry of usable row k, then clear it. */
  method AnswerCdp(cdp: array<CdpRow>, k: nat, rm: seq<string>) returns (r: string)
    requires k < cdp.Length && cdp[k].deviceId.Some? && cdp[k].portId.Some?
    modifies cdp
    ensures r == CdpEntry(old(cdp[k]), rm)
    ensures cdp[..] == old(cdp[..])[k := ClearedCdp]
  {
    var row := cdp[k];
    var devid := CutAt(CutAt(row.deviceId.value, '('), '.');
    devid := ApplyRemoveList(devid, rm);
    var port := row.portId.value;
    r := devid + "-" + FamilyLetter(port) + PortPath(port);
    cdp[k] := ClearedCdp;
  }

  /** An LLDP row that answers for `iface`: its local port id is the short form of
      `iface`, and it has the chassis id and port id the result needs. */
  predicate LldpUsable(row: LldpRow, iface: string) {
    row.localPortId == Some(LocalShort(iface)) && row.chassisId.Some? && row.portId.Some?
  }

  /** On a fabric-extender port the short form keeps only the last repetition of the
      numeric path, so an LLDP row that names the port in full is never matched. */
  lemma FexLocalShort(chassisId: Option<string>, portId: Option<string>)
    ensures LocalShort("Ethernet101/1/48") == "Eth8"
    ensures !LldpUsable(LldpRow(Some("Eth101/1/48"), chassisId, portId), "Ethernet101/1/48")
  {
    var iface := "Ethernet101/1/48";
    assert iface[..3] == "Eth";
    FexPort();
    assert LocalShort(iface) == "Eth" + "8" == "Eth8";
    assert |"Eth8"| != |"Eth101/1/48"|;
  }

  /** `chassisid + "-" + if3`: the chassis id gets only the remove-list, no cut at "(" or
      "."; then a dash, at most one family letter and the port's trailing digits, slashes
      and colons. */
  function LldpEntry(row: LldpRow, rm: seq<string>): (r: string)
    requires row.chassisId.Some? && row.portId.Some?
    ensures var d := RemoveAll(row.chassisId.value, rm);
      && |d| < |r| <= |d| + 2 + |row.portId.value| && r[..|d|] == d && r[|d|] == '-'
      && forall i | |d| + 2 <= i < |r| :: r[i] in Digits || r[i] == '/' || r[i] == ':'
  {
    RemoveAll(row.chassisId.value, rm) + "-" + FamilyLetter(row.portId.value) + LldpPortPath(row.portId.value)
  }

  /** The first usable LLDP row at or after `from`. */
  function FirstLldp(t: seq<LldpRow>, iface: string, from: nat): (k: Option<nat>)
    requires from <= |t|
    ensures k.Some? ==> from <= k.value < |t| && LldpUsable(t[k.value], iface)
    ensures k.Some? ==> forall j | from <= j < k.value :: !LldpUsable(t[j], iface)
    ensures k.None? ==> forall j | from <= j < |t| :: !LldpUsable(t[j], iface)
    decreases |t| - from
  {
    if from == |t| then None
    else if LldpUsable(t[from], iface) then Some(from)
    else FirstLldp(t, iface, from + 1)
  }

  /** What `getlldpnbor` returns. */
  function LldpLookup(t: seq<LldpRow>, iface: string, rm: seq<string>): string
  {
    match FirstLldp(t, iface, 0)
    case None => NoNeighbor
    case Some(k) => LldpEntry(t[k], rm)
  }

  /** The LLDP table after `getlldpnbor`. */
  function LldpConsumed(t: seq<LldpRow>, iface: string): (t': seq<LldpRow>)
    ensures |t'| == |t|
  {
    match FirstLldp(t, iface, 0)
    case None => t
    case Some(k) => t[k := ClearedLldp]
  }

  /** `getlldpnbor`: the same first-match scan over the LLDP rows. */
  method GetLldpNeighbor(iface: string, lldp: array<LldpRow>, rm: seq<string>) returns (r: string)
    modifies lldp
    ensures r == LldpLookup(old(lldp[..]), iface, rm)
    ensures lldp[..] == LldpConsumed(old(lldp[..]), iface)
  {
    var ifshort := LocalShort(iface);
    var k := 0;
    while k < lldp.Length && !(lldp[k].localPortId == Some(ifshort) && lldp[k].chassisId.Some? && lldp[k].portId.Some?)
      invariant 0 <= k <= lldp.Length
      invariant forall j | 0 <= j < k :: !LldpUsable(lldp[j], iface)
    {
      k := k + 1;
    }
    if k == lldp.Length {
      assert FirstLldp(lldp[..], iface, 0).None?;
      return NoNeighbor;
    }
    assert FirstLldp(lldp[..], iface, 0) == Some(k);
    r := AnswerLldp(lldp, k, rm);
  }

  /** The body of the match in `getlldpnbor`: build the entry of usable row k, then clear it. */
  method AnswerLldp(lldp: array<LldpRow>, k: nat, rm: seq<string>) returns (r: string)
    requires k < lldp.Length && lldp[k].chassisId.Some? && lldp[k].portId.Some?
    modifies lldp
    ensures r == LldpEntry(old(lldp[k]), rm)
    ensures lldp[..] == old(lldp[..])[k := ClearedLldp]
  {
    var row := lldp[k];
    var chassisid := ApplyRemoveList(row.chassisId.value, rm);
    var port := row.portId.value;
    r := chassisid + "-" + FamilyLetter(port) + LldpPortPath(port);
    lldp[k] := ClearedLldp;
  }

  /** The neighbour text of `if_counter` with -n. `cdp` / `lldp` are None when that
      query failed. CDP is asked first; LLDP only when CDP is unavailable or said "---". */
  function Resolve(cdp: Option<seq<CdpRow>>, lldp: Option<seq<LldpRow>>, iface: string, rm: seq<string>): (r: string)
    ensures cdp.None? && lldp.None? ==> r == NoNeighbor
    ensures r != NoNeighbor ==>
      (cdp.Some? && FirstCdp(cdp.value, iface, 0).Some?) || (lldp.Some? && FirstLldp(lldp.value, iface, 0).Some?)
  {
    var fromCdp := if cdp.Some? then CdpLookup(cdp.value, iface, rm) else NoNeighbor;
    if lldp.Some? && fromCdp == NoNeighbor then LldpLookup(lldp.value, iface, rm) else fromCdp
  }

  /** With no CDP match, the first usable LLDP row decides the result. */
  lemma LldpFallback(cdp: Option<seq<CdpRow>>, lldp: seq<LldpRow>, iface: string, rm: seq<string>, k: nat)
    requires cdp.None? || FirstCdp(cdp.value, iface, 0).None?
    requires FirstLldp(lldp, iface, 0) == Some(k)
    ensures Resolve(cdp, Some(lldp), iface, rm) == LldpEntry(lldp[k], rm)
  {
  }

  /** A CDP result other than "---" is final: LLDP is not consulted. */
  lemma CdpPreferred(cdp: seq<CdpRow>, lldp: Option<seq<LldpRow>>, iface: string, rm: seq<string>, k: nat)
    requires FirstCdp(cdp, iface, 0) == Some(k)
    requires CdpEntry(cdp[k], rm) != NoNeighbor
    ensures Resolve(Some(cdp), lldp, iface, rm) == CdpEntry(cdp[k], rm)
  {
  }

  /** With no usable row in either table the result is "---". */
  lemma NoMatchNoNeighbor(cdp: Option<seq<CdpRow>>, lldp: Option<seq<LldpRow>>, iface: string, rm: seq<string>)
    requires cdp.Some? ==> forall j | 0 <= j < |cdp.value| :: !CdpUsable(cdp.value[j], iface)
    requires lldp.Some? ==> forall j | 0 <= j < |lldp.value| :: !LldpUsable(lldp.value[j], iface)
    ensures Resolve(cdp, lldp, iface, rm) == NoNeighbor
  {
  }

  /** The -n lookup of `if_counter`: CDP when available, then LLDP when available and
      CDP gave "---". Each table loses at most the row it answered with. */
  method ResolveNeighbor(iface: string, rm: seq<string>, hasCdp: bool, cdp: array<CdpRow>,
                         hasLldp: bool, lldp: array<LldpRow>) returns (r: string)
    modifies cdp, lldp
    ensures r == Resolve(if hasCdp then Some(old(cdp[..])) else None,
                         if hasLldp then Some(old(lldp[..])) else None, iface, rm)
    ensures cdp[..] == if hasCdp then CdpConsumed(old(cdp[..]), iface) else old(cdp[..])
    ensures var fromCdp := if hasCdp then CdpLookup(old(cdp[..]), iface, rm) else NoNeighbor;
            lldp[..] == if hasLldp && fromCdp == NoNeighbor then LldpConsumed(old(lldp[..]), iface) else old(lldp[..])
  {
    if hasCdp {
      r := GetCdpNeighbor(iface, cdp, rm);
    } else {
      r := NoNeighbor;
    }
    if hasLldp && r == NoNeighbor {
      r := GetLldpNeighbor(iface, lldp, rm);
    }
  }
}
